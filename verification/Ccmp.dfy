/**
  CCMP (ccmp.c): protecting and opening 802.11 frames with CCM.  The buffer-filling methods
  are proved against `Protect` and `Unprotect`, which are stated with the CCM of `Ccm`.
 */
module Ccmp {
  import opened Options
  import opened Octets
  import opened Ccm
  import opened CcmLoops

  const WLAN_FC_TODS: bv16 := 0x0100
  const WLAN_FC_FROMDS: bv16 := 0x0200
  const WLAN_FC_RETRY: bv16 := 0x0800
  const WLAN_FC_PWRMGT: bv16 := 0x1000
  const WLAN_FC_MOREDATA: bv16 := 0x2000
  const WLAN_FC_ISWEP: bv16 := 0x4000
  const WLAN_FC_ORDER: bv16 := 0x8000

  const WLAN_FC_TYPE_MGMT: bv16 := 0
  const WLAN_FC_TYPE_DATA: bv16 := 2

  function FcType(fc: bv16): bv16 { (fc & 0x000c) >> 2 }

  function FcSubtype(fc: bv16): bv16 { (fc & 0x00f0) >> 4 }

  predicate FourAddress(fc: bv16) {
    fc & (WLAN_FC_TODS | WLAN_FC_FROMDS) == WLAN_FC_TODS | WLAN_FC_FROMDS
  }

  predicate QosData(fc: bv16) {
    FcType(fc) == WLAN_FC_TYPE_DATA && FcSubtype(fc) & 0x08 != 0
  }

  /** Where the QoS control field would be. */
  function QosAt(fc: bv16): nat { if FourAddress(fc) then 30 else 24 }

  /** How much of the frame the AAD and the nonce look at. */
  function HeaderReach(fc: bv16): nat { QosAt(fc) + if QosData(fc) then 2 else 0 }

  /** The frame control field as authenticated: bits that a retransmission may change are masked. */
  function MaskedFc(fc: bv16): bv16 {
    var f := if FcType(fc) != WLAN_FC_TYPE_DATA then fc
             else if QosData(fc) then fc & !0x0070 & !WLAN_FC_ORDER
             else fc & !0x0070;
    (f & !(WLAN_FC_RETRY | WLAN_FC_PWRMGT | WLAN_FC_MOREDATA)) | WLAN_FC_ISWEP
  }

  /** Masked frame control, the three addresses, and the fragment number. */
  function AadFixed(hdr: Octets): (aad: Octets)
    requires |hdr| >= 24
    ensures |aad| == 22
  {
    Le16(MaskedFc(GetLe16(hdr, 0))) + hdr[4..22] + Le16(GetLe16(hdr, 22) & !0xfff0)
  }

  /** The QoS control field is authenticated without its bits 4 to 6, and without bit 7. */
  function DropRest(qos: Octet): Octet { qos & !0x70 }

  function DropAMsdu(qos: Octet): Octet { qos & !0x80 }

  /** The fourth address and the masked QoS control field, where present. */
  function AadExtra(hdr: Octets): (aad: Octets)
    requires |hdr| >= 24 && |hdr| >= HeaderReach(GetLe16(hdr, 0))
    ensures |aad| <= 8
  {
    var fc := GetLe16(hdr, 0);
    (if FourAddress(fc) then hdr[24..30] else [])
    + (if QosData(fc) then [DropAMsdu(DropRest(hdr[QosAt(fc)])), 0x00] else [])
  }

  /** The additional authenticated data (section 8.3.3.3.2 of IEEE Std 802.11-2007). */
  function Aad(hdr: Octets): (aad: Octets)
    requires |hdr| >= 24 && |hdr| >= HeaderReach(GetLe16(hdr, 0))
    ensures 22 <= |aad| <= 30
  {
    AadFixed(hdr) + AadExtra(hdr)
  }

  /** The first octet of the nonce: the priority, or the management flag. */
  function NonceFlags(hdr: Octets): Octet
    requires |hdr| >= 24 && |hdr| >= HeaderReach(GetLe16(hdr, 0))
  {
    var fc := GetLe16(hdr, 0);
    if QosData(fc) then hdr[QosAt(fc)] & 0x0f
    else if FcType(fc) == WLAN_FC_TYPE_MGMT then 0x10
    else 0
  }

  /** `ccmp_get_pn`: the packet number carried by a CCMP header, most significant octet first. */
  function Pn(data: Octets): (pn: Octets)
    requires |data| >= 8
    ensures |pn| == 6
  {
    [data[7], data[6], data[5], data[4], data[1], data[0]]
  }

  /** The CCMP header that carries packet number `pn`. */
  function CcmpHeader(pn: Octets, keyid: bv8): (h: Octets)
    requires |pn| == 6
    ensures |h| == 8 && Pn(h) == pn
  {
    [pn[5], pn[4], 0x00, 0x20 | (keyid << 6), pn[3], pn[2], pn[1], pn[0]]
  }

  /** The nonce: flags, transmitter address and packet number. */
  function NonceOf(hdr: Octets, data: Octets): Nonce
    requires |hdr| >= 24 && |hdr| >= HeaderReach(GetLe16(hdr, 0)) && |data| >= 8
  {
    [NonceFlags(hdr)] + hdr[10..16] + Pn(data)
  }

  // ---- The octets of AAD and nonce

  /** The header has four addresses; the frame is QoS data. */
  predicate HasFour(hdr: Octets)
    requires |hdr| >= 24
  {
    hdr[1] & 0x03 == 0x03
  }

  predicate HasQos(hdr: Octets)
    requires |hdr| >= 24
  {
    hdr[0] & 0x8c == 0x88
  }

  function QosPlace(hdr: Octets): nat
    requires |hdr| >= 24
  {
    if HasFour(hdr) then 30 else 24
  }

  predicate IsManagement(hdr: Octets)
    requires |hdr| >= 24
  {
    hdr[0] & 0x0c == 0x00
  }

  /** A header that reaches as far as its first two octets say. */
  predicate Reaches(hdr: Octets) {
    |hdr| >= 24 && |hdr| >= QosPlace(hdr) + if HasQos(hdr) then 2 else 0
  }

  /** The QoS priority; 0 for other frames. */
  function PriorityOf(hdr: Octets): Octet
    requires Reaches(hdr)
  {
    if HasQos(hdr) then hdr[QosPlace(hdr)] & 0x0f else 0
  }

  ghost predicate NonceIs(hdr: Octets, data: Octets, n: Octets)
    requires Reaches(hdr) && |data| >= 8
  {
    && |n| == 13
    && n[0] == (if IsManagement(hdr) then 0x10 else PriorityOf(hdr))
    && n[1..7] == hdr[10..16]
    && n[7..] == [data[7], data[6], data[5], data[4], data[1], data[0]]
  }

  ghost predicate AadIs(hdr: Octets, a: Octets)
    requires Reaches(hdr)
  {
    && |a| == QosPlace(hdr) - 2 + (if HasQos(hdr) then 2 else 0)
    && a[0] == (if hdr[0] & 0x0c == 0x08 then hdr[0] & 0x8f else hdr[0])
    && a[1] == (hdr[1] & (if HasQos(hdr) then 0x47 else 0xc7)) | 0x40
    && a[2..20] == hdr[4..22]
    && a[20] == hdr[22] & 0x0f && a[21] == 0x00
    && (HasFour(hdr) ==> a[22..28] == hdr[24..30])
    && (HasQos(hdr) ==> a[|a| - 2] == hdr[QosPlace(hdr)] & 0x0f && a[|a| - 1] == 0x00)
  }

  lemma FcBits(lo: Octet, hi: Octet)
    ensures var fc := Pack16(lo, hi);
            && (FourAddress(fc) <==> hi & 0x03 == 0x03)
            && (QosData(fc) <==> lo & 0x8c == 0x88)
            && (FcType(fc) == WLAN_FC_TYPE_MGMT <==> lo & 0x0c == 0x00)
  {
  }

  lemma MaskedOctets(lo: Octet, hi: Octet)
    ensures var m := Le16(MaskedFc(Pack16(lo, hi)));
            && m[0] == (if lo & 0x0c == 0x08 then lo & 0x8f else lo)
            && m[1] == (hi & (if lo & 0x8c == 0x88 then 0x47 else 0xc7)) | 0x40
  {
  }

  lemma FragmentOctets(lo: Octet, hi: Octet)
    ensures var m := Le16(Pack16(lo, hi) & !0xfff0); |m| == 2 && m[0] == lo & 0x0f && m[1] == 0x00
  {
  }

  lemma QosBits(qos: Octet)
    ensures DropAMsdu(DropRest(qos)) == qos & 0x0f
  {
  }

  lemma ReachIs(hdr: Octets)
    requires |hdr| >= 24
    ensures QosAt(GetLe16(hdr, 0)) == QosPlace(hdr) && (HasQos(hdr) <==> QosData(GetLe16(hdr, 0)))
    ensures FourAddress(GetLe16(hdr, 0)) <==> HasFour(hdr)
    ensures Reaches(hdr) <==> |hdr| >= HeaderReach(GetLe16(hdr, 0))
  {
    FcBits(hdr[0], hdr[1]);
    hide FourAddress, QosData, Pack16;
  }

  lemma NonceOctets(hdr: Octets, data: Octets)
    requires Reaches(hdr) && |data| >= 8
    ensures |hdr| >= HeaderReach(GetLe16(hdr, 0)) && NonceIs(hdr, data, NonceOf(hdr, data))
  {
    ReachIs(hdr);
    FcBits(hdr[0], hdr[1]);
    NotBoth(hdr[0]);
    hide FourAddress, QosData, Pack16, FcType;
    assert NonceOf(hdr, data)[1..7] == hdr[10..16];
  }

  lemma NotBoth(lo: Octet)
    ensures !(lo & 0x0c == 0x00 && lo & 0x8c == 0x88)
  {
  }

  lemma AadOctets(hdr: Octets)
    requires Reaches(hdr)
    ensures |hdr| >= HeaderReach(GetLe16(hdr, 0)) && AadIs(hdr, Aad(hdr))
  {
    ReachIs(hdr);
    MaskedOctets(hdr[0], hdr[1]);
    FragmentOctets(hdr[22], hdr[23]);
    if HasQos(hdr) {
      QosBits(hdr[QosPlace(hdr)]);
    }
    hide FourAddress, QosData, Pack16, MaskedFc, Le16, DropRest, DropAMsdu;
    FixedParts(hdr);
    hide AadFixed;
    var a, f := Aad(hdr), AadFixed(hdr);
    assert a[..22] == f;
    assert a[2..20] == f[2..20] && a[0] == f[0] && a[1] == f[1] && a[20] == f[20] && a[21] == f[21];
    assert a[22..] == AadExtra(hdr);
  }

  lemma FixedParts(hdr: Octets)
    requires |hdr| >= 24
    ensures var m, s := Le16(MaskedFc(GetLe16(hdr, 0))), Le16(GetLe16(hdr, 22) & !0xfff0);
            var f := AadFixed(hdr);
            |m| == |s| == 2 && f[0] == m[0] && f[1] == m[1] && f[2..20] == hdr[4..22] && f[20] == s[0] && f[21] == s[1]
  {
    hide GetLe16, MaskedFc;
  }

  /**
    Frames with the same nonce: both management or neither, and alike in priority, transmitter
    address and packet number.
   */
  lemma NoncesSeparate(hdr: Octets, data: Octets, other: Octets, body: Octets)
    requires Reaches(hdr) && |data| >= 8 && Reaches(other) && |body| >= 8
    ensures |hdr| >= HeaderReach(GetLe16(hdr, 0)) && |other| >= HeaderReach(GetLe16(other, 0))
    ensures NonceOf(hdr, data) == NonceOf(other, body) <==>
            && (IsManagement(hdr) <==> IsManagement(other)) && PriorityOf(hdr) == PriorityOf(other)
            && hdr[10..16] == other[10..16]
            && data[..2] == body[..2] && data[4..8] == body[4..8]
  {
    NonceOctets(hdr, data);
    NonceOctets(other, body);
    SmallPriority(hdr);
    SmallPriority(other);
    hide HeaderReach, GetLe16, NonceOf, IsManagement, PriorityOf, Reaches;
    var n, m := NonceOf(hdr, data), NonceOf(other, body);
    assert n == [n[0]] + n[1..7] + n[7..] && m == [m[0]] + m[1..7] + m[7..];
    SamePn(data, body);
  }

  lemma SmallPriority(hdr: Octets)
    requires Reaches(hdr)
    ensures PriorityOf(hdr) != 0x10 && (IsManagement(hdr) ==> PriorityOf(hdr) == 0)
  {
    NotBoth(hdr[0]);
  }

  lemma SamePn(data: Octets, body: Octets)
    requires |data| >= 8 && |body| >= 8
    ensures [data[7], data[6], data[5], data[4], data[1], data[0]]
            == [body[7], body[6], body[5], body[4], body[1], body[0]]
            <==> data[..2] == body[..2] && data[4..8] == body[4..8]
  {
    var p := [data[7], data[6], data[5], data[4], data[1], data[0]];
    var q := [body[7], body[6], body[5], body[4], body[1], body[0]];
    if data[..2] == body[..2] && data[4..8] == body[4..8] {
      assert data[0] == data[..2][0] && data[1] == data[..2][1] && data[4] == data[4..8][0] && data[5] == data[4..8][1];
      assert data[6] == data[4..8][2] && data[7] == data[4..8][3];
    }
    if p == q {
      assert p[0] == q[0] && p[1] == q[1] && p[2] == q[2] && p[3] == q[3] && p[4] == q[4] && p[5] == q[5];
    }
  }

  /** `ccmp_aad_nonce`: fill in the AAD from `aad[2]` on, and the nonce. */
  method CcmpAadNonce(hdr: Octets, data: Octets, aad: array<Octet>, nonce: array<Octet>) returns (aadLen: nat)
    requires |hdr| >= 24 && |hdr| >= HeaderReach(GetLe16(hdr, 0)) && |data| >= 8
    requires aad.Length == 32 && nonce.Length == 13 && aad != nonce
    modifies aad, nonce
    ensures aadLen == |Aad(hdr)| && aad[..] == Put(old(aad[..]), 2, Aad(hdr))
    ensures nonce[..] == NonceOf(hdr, data)
    ensures Reaches(hdr) && NonceIs(hdr, data, nonce[..]) && AadIs(hdr, aad[2..2 + aadLen])
  {
    ReachIs(hdr);
    NonceOctets(hdr, data);
    AadOctets(hdr);
    hide Reaches, NonceIs, AadIs, NonceOf;
    var fc, addr4, qos, flags := ReadFields(hdr);
    hide MaskedFc, FourAddress, QosData, NonceFlags, GetLe16, Aad, Put;
    aadLen := FillAad(hdr, fc, addr4, qos, aad);
    PutNonce(hdr, data, flags, nonce);
    NonceParts(hdr, data);
    PutSlice(old(aad[..]), 2, Aad(hdr));
  }

  lemma NonceParts(hdr: Octets, data: Octets)
    requires |hdr| >= 24 && |hdr| >= HeaderReach(GetLe16(hdr, 0)) && |data| >= 8
    ensures NonceOf(hdr, data) == [NonceFlags(hdr)] + hdr[10..16] + Pn(data)
  {
  }

  lemma PutSlice(s: Octets, at: nat, src: Octets)
    requires at + |src| <= |s|
    ensures Put(s, at, src)[at..at + |src|] == src
  {
  }

  method PutPn(data: Octets, nonce: array<Octet>)
    requires |data| >= 8 && nonce.Length == 13
    modifies nonce
    ensures nonce[..7] == old(nonce[..7]) && nonce[7..] == Pn(data)
  {
    nonce[7], nonce[8], nonce[9] := data[7], data[6], data[5];
    nonce[10], nonce[11], nonce[12] := data[4], data[1], data[0];
  }

  method PutNonce(hdr: Octets, data: Octets, flags: Octet, nonce: array<Octet>)
    requires |hdr| >= 24 && |data| >= 8 && nonce.Length == 13
    modifies nonce
    ensures nonce[..] == [flags] + hdr[10..16] + Pn(data)
  {
    hide Pn;
    nonce[0] := flags;
    Copy(nonce, 1, hdr[10..16]);
    assert nonce[..7] == [flags] + hdr[10..16];
    PutPn(data, nonce);
    assert nonce[..] == nonce[..7] + nonce[7..];
  }

  /** Its branches on the frame control field. */
  method ReadFields(hdr: Octets) returns (fc: bv16, addr4: bool, qos: bool, flags: Octet)
    requires |hdr| >= 24 && |hdr| >= HeaderReach(GetLe16(hdr, 0))
    ensures fc == MaskedFc(GetLe16(hdr, 0)) && flags == NonceFlags(hdr)
    ensures addr4 == FourAddress(GetLe16(hdr, 0)) && qos == QosData(GetLe16(hdr, 0))
  {
    hide GetLe16;
    fc := GetLe16(hdr, 0);
    var stype := FcSubtype(fc);
    qos, addr4 := false, false;
    flags := 0;
    if fc & (WLAN_FC_TODS | WLAN_FC_FROMDS) == WLAN_FC_TODS | WLAN_FC_FROMDS {
      addr4 := true;
    }
    if FcType(fc) == WLAN_FC_TYPE_DATA {
      fc := fc & !0x0070;
      if stype & 0x08 != 0 {
        qos := true;
        fc := fc & !WLAN_FC_ORDER;
        flags := hdr[if addr4 then 30 else 24] & 0x0f;
      }
    } else if FcType(fc) == WLAN_FC_TYPE_MGMT {
      flags := flags | 0x10;
    }
    fc := fc & !(WLAN_FC_RETRY | WLAN_FC_PWRMGT | WLAN_FC_MOREDATA);
    fc := fc | WLAN_FC_ISWEP;
  }

  /** Appending at a write position. */
  lemma PutPut(s: Octets, at: nat, a: Octets, b: Octets)
    requires at + |a| + |b| <= |s|
    ensures Put(Put(s, at, a), at + |a|, b) == Put(s, at, a + b)
  {
  }

  /** The writes of `ccmp_aad_nonce` up to the sequence control field. */
  method FillFixed(hdr: Octets, fc: bv16, aad: array<Octet>)
    requires |hdr| >= 24 && aad.Length == 32 && fc == MaskedFc(GetLe16(hdr, 0))
    modifies aad
    ensures aad[..] == Put(old(aad[..]), 2, AadFixed(hdr))
  {
    hide MaskedFc, GetLe16;
    Copy(aad, 2, Le16(fc));
    Copy(aad, 4, hdr[4..22]);
    Copy(aad, 22, Le16(GetLe16(hdr, 22) & !0xfff0));
  }

  /** The writes of `ccmp_aad_nonce` behind it, through `pos`. */
  method FillExtra(hdr: Octets, addr4: bool, qos: bool, aad: array<Octet>) returns (pos: nat)
    requires |hdr| >= 24 && |hdr| >= HeaderReach(GetLe16(hdr, 0)) && aad.Length == 32
    requires addr4 == FourAddress(GetLe16(hdr, 0)) && qos == QosData(GetLe16(hdr, 0))
    modifies aad
    ensures pos == 24 + |AadExtra(hdr)| && aad[..] == Put(old(aad[..]), 24, AadExtra(hdr))
  {
    hide FourAddress, QosData, GetLe16, DropRest, DropAMsdu;
    pos := 24;
    var extra := hdr[24..24 + (if addr4 then 6 else 0) + (if qos then 2 else 0)];
    Copy(aad, pos, extra);
    if addr4 {
      pos := pos + 6;
    }
    if qos {
      aad[pos] := DropRest(aad[pos]);
      aad[pos] := DropAMsdu(aad[pos]);
      pos := pos + 1;
      aad[pos] := 0x00;
      pos := pos + 1;
    }
  }

  method FillAad(hdr: Octets, fc: bv16, addr4: bool, qos: bool, aad: array<Octet>) returns (aadLen: nat)
    requires |hdr| >= 24 && |hdr| >= HeaderReach(GetLe16(hdr, 0)) && aad.Length == 32
    requires fc == MaskedFc(GetLe16(hdr, 0))
    requires addr4 == FourAddress(GetLe16(hdr, 0)) && qos == QosData(GetLe16(hdr, 0))
    modifies aad
    ensures aadLen == |Aad(hdr)| && aad[..] == Put(old(aad[..]), 2, Aad(hdr))
  {
    hide MaskedFc, FourAddress, QosData, GetLe16, AadFixed, AadExtra;
    PutPut(aad[..], 2, AadFixed(hdr), AadExtra(hdr));
    FillFixed(hdr, fc, aad);
    var pos := FillExtra(hdr, addr4, qos, aad);
    aadLen := pos - 2;
  }

  /** The AAD buffer of ccmp.c: 32 bytes, zeroed, then length and AAD. */
  function AadBuffer(aad: Octets): (b: Octets)
    requires |aad| <= 30
    ensures |b| == 32
  {
    Be16(|aad|) + aad + Zeros(30 - |aad|)
  }

  lemma TwoBlocksOf(s: Octets, buf: Octets)
    requires 16 < |s| <= 32 && buf == s + Zeros(32 - |s|)
    ensures Blocks(s) == [buf[..16], buf[16..]]
  {
    assert FirstBlock(s) == buf[..16];
    var r := Rest(s);
    assert FirstBlock(r) == buf[16..];
    assert Rest(r) == [] && Blocks([]) == [];
    assert Blocks(r) == [FirstBlock(r)];
  }

  /** An AAD of 15 to 30 bytes always fills exactly two blocks of the MAC. */
  lemma TwoBlocks(aad: Octets)
    requires 15 <= |aad| <= 30
    ensures Blocks(Be16(|aad|) + aad) == [AadBuffer(aad)[..16], AadBuffer(aad)[16..]]
  {
    var s := Be16(|aad|) + aad;
    assert AadBuffer(aad) == s + Zeros(32 - |s|);
    hide *;
    TwoBlocksOf(s, AadBuffer(aad));
  }

  lemma MacOfBuffer(aes: Cipher, nonce: Nonce, aad: Octets, m: Octets)
    requires 15 <= |aad| <= 30
    ensures var x1 := aes(B0(nonce, |m|));
            var x2 := aes(Xor(x1, AadBuffer(aad)[..16]));
            var x3 := aes(Xor(x2, AadBuffer(aad)[16..]));
            CbcMac(aes, x3, Blocks(m)) == Mac(aes, nonce, aad, m)
  {
    hide AadBuffer, Blocks, B0, Be16, Xor;
    TwoBlocks(aad);
    var b1: Block, b2: Block := AadBuffer(aad)[..16], AadBuffer(aad)[16..];
    var x1 := aes(B0(nonce, |m|));
    CbcMacAppend(aes, x1, [b1, b2], Blocks(m));
    assert [b1, b2][1..] == [b2] && [b2][1..] == [];
    assert CbcMac(aes, x1, [b1, b2]) == CbcMac(aes, aes(Xor(x1, b1)), [b2]);
  }

  lemma XorCommutes(a: Octets, b: Octets)
    requires |a| == |b|
    ensures Xor(a, b) == Xor(b, a)
  {
  }

  lemma PutAll(s: Octets, t: Octets)
    requires |s| == |t|
    ensures Put(s, 0, t) == t
  {
  }

  /** Absorb one AAD block: `xor_aes_block(&aad[at], x)`, then X := E(aad[at..]). */
  method AadStep(aes: Cipher, aad: array<Octet>, at: nat, ghost b: Block, x: array<Octet>)
    requires aad.Length == 32 && x.Length == 16 && aad != x && (at == 0 || at == 16)
    requires aad[at..at + 16] == b
    modifies aad, x
    ensures x[..] == aes(Xor(old(x[..]), b))
    ensures at == 0 ==> aad[16..32] == old(aad[16..32])
  {
    assert aad[..][at..at + 16] == b;
    XorCommutes(x[..], b);
    XorAesBlock(aad, at, x[..]);
    assert aad[at..at + 16] == Xor(old(x[..]), b);
    ghost var masked := aad[at..at + 16];
    PutAll(x[..], aes(masked));
    AesEncrypt(aes, aad[at..at + 16], x, 0);
  }

  /** The authentication part, common to `ccmp_encrypt` and `ccmp_decrypt`. */
  method Authenticate(aes: Cipher, nonce: Nonce, aad: array<Octet>, ghost a: Octets, m: Octets, x: array<Octet>)
    requires aad.Length == 32 && x.Length == 16 && aad != x
    requires 22 <= |a| <= 30 && aad[..] == AadBuffer(a)
    modifies aad, x
    ensures x[..] == Mac(aes, nonce, a, m)
  {
    ghost var b1: Block, b2: Block := AadBuffer(a)[..16], AadBuffer(a)[16..];
    assert aad[0..16] == b1 && aad[16..32] == b2;
    MacOfBuffer(aes, nonce, a, m);
    hide *;
    PutAll(x[..], aes(B0(nonce, |m|)));
    AesEncrypt(aes, B0(nonce, |m|), x, 0);
    AadStep(aes, aad, 0, b1, x);
    AadStep(aes, aad, 16, b2, x);
    MacLoop(aes, x, m);
  }

  /** The protected frame's header: the Protected bit set, and the CCMP header behind it. */
  function ProtectedHeader(frame: Octets, hdrlen: nat, pn: Octets, keyid: bv8): (h: Octets)
    requires 24 <= hdrlen <= |frame| && |pn| == 6
    ensures |h| == hdrlen + 8 && h[hdrlen..] == CcmpHeader(pn, keyid)
  {
    Put(frame[..hdrlen], 0, Le16(GetLe16(frame, 0) | WLAN_FC_ISWEP)) + CcmpHeader(pn, keyid)
  }

  /** What `ccmp_encrypt` emits: the protected header and the sealed payload. */
  function Protect(aes: Cipher, frame: Octets, hdrlen: nat, pn: Octets, keyid: bv8): Octets
    requires 24 <= hdrlen <= |frame| && |pn| == 6
  {
    var h := ProtectedHeader(frame, hdrlen, pn, keyid);
    h + Seal(aes, NonceOf(h, h[hdrlen..]), Aad(h), frame[hdrlen..])
  }

  /** What `ccmp_decrypt` returns for the header `hdr` and the frame body `data`. */
  function Unprotect(aes: Cipher, hdr: Octets, data: Octets): Option<Octets>
    requires |hdr| >= 24 && |hdr| >= HeaderReach(GetLe16(hdr, 0))
  {
    if |data| < 16 then None
    else Open(aes, NonceOf(hdr, data), Aad(hdr), data[8..])
  }

  /** The octets in front of the sealed payload: Protected set, packet number, extended IV and key ID. */
  ghost predicate HeaderIs(frame: Octets, hdrlen: nat, pn: Octets, keyid: bv8, h: Octets)
    requires 24 <= hdrlen <= |frame| && |pn| == 6
  {
    && |h| == hdrlen + 8
    && h[0] == frame[0] && h[1] == frame[1] | 0x40 && h[2..hdrlen] == frame[2..hdrlen]
    && h[hdrlen..] == [pn[5], pn[4], 0x00, (keyid * 64) | 0x20, pn[3], pn[2], pn[1], pn[0]]
  }

  lemma ProtectedOctets(lo: Octet, hi: Octet)
    ensures var m := Le16(Pack16(lo, hi) | WLAN_FC_ISWEP); |m| == 2 && m[0] == lo && m[1] == hi | 0x40
  {
  }

  lemma KeyIdOctet(keyid: bv8)
    ensures 0x20 | (keyid << 6) == (keyid * 64) | 0x20
  {
  }

  lemma HeaderOctets(frame: Octets, hdrlen: nat, pn: Octets, keyid: bv8)
    requires 24 <= hdrlen <= |frame| && |pn| == 6
    ensures HeaderIs(frame, hdrlen, pn, keyid, ProtectedHeader(frame, hdrlen, pn, keyid))
  {
    ProtectedOctets(frame[0], frame[1]);
    KeyIdOctet(keyid);
    hide Pack16, Le16;
    var h := ProtectedHeader(frame, hdrlen, pn, keyid);
    assert h[2..hdrlen] == frame[2..hdrlen];
  }

  /** The body `data` behind a header is the message sealed with the nonce and the AAD of that header. */
  ghost predicate SealedBehind(aes: Cipher, hdr: Octets, data: Octets, m: Octets) {
    && Reaches(hdr) && |data| >= 16
    && exists nonce: Nonce, aad ::
         NonceIs(hdr, data, nonce) && AadIs(hdr, aad) && SealsTo(aes, nonce, aad, m, data[8..])
  }

  lemma NonceIsOnly(hdr: Octets, data: Octets, n: Octets)
    requires Reaches(hdr) && |data| >= 8 && NonceIs(hdr, data, n)
    ensures |hdr| >= HeaderReach(GetLe16(hdr, 0)) && n == NonceOf(hdr, data)
  {
    NonceOctets(hdr, data);
    var m := NonceOf(hdr, data);
    assert n == [n[0]] + n[1..7] + n[7..] && m == [m[0]] + m[1..7] + m[7..];
  }

  lemma AadIsOnly(hdr: Octets, a: Octets)
    requires Reaches(hdr) && AadIs(hdr, a)
    ensures |hdr| >= HeaderReach(GetLe16(hdr, 0)) && a == Aad(hdr)
  {
    AadOctets(hdr);
    SameAad(hdr, a, Aad(hdr));
  }

  lemma SameAad(hdr: Octets, a: Octets, b: Octets)
    requires Reaches(hdr) && AadIs(hdr, a) && AadIs(hdr, b)
    ensures a == b
  {
    assert a[..2] == b[..2] && a[20..22] == b[20..22];
    var four := if HasFour(hdr) then 28 else 22;
    assert a[22..four] == b[22..four];
    assert a[four..] == b[four..];
    assert a == a[..2] + a[2..20] + a[20..22] + a[22..four] + a[four..];
    assert b == b[..2] + b[2..20] + b[20..22] + b[22..four] + b[four..];
  }

  /** Exactly the octets so sealed open to the message, under every header. */
  lemma UnprotectOctets(aes: Cipher, hdr: Octets, data: Octets, m: Octets)
    requires Reaches(hdr)
    ensures |hdr| >= HeaderReach(GetLe16(hdr, 0))
    ensures Unprotect(aes, hdr, data) == Some(m) <==> SealedBehind(aes, hdr, data, m)
  {
    ReachIs(hdr);
    if |data| >= 16 {
      var nonce, aad := NonceOf(hdr, data), Aad(hdr);
      NonceOctets(hdr, data);
      AadOctets(hdr);
      hide Reaches, HeaderReach, GetLe16, NonceIs, AadIs, SealsTo, NonceOf, Aad, Open, Seal;
      OpensExactlySealed(aes, nonce, aad, data[8..], m);
      SealsExactly(aes, nonce, aad, m, data[8..]);
      forall n: Nonce, a | NonceIs(hdr, data, n) && AadIs(hdr, a) ensures n == nonce && a == aad {
        NonceIsOnly(hdr, data, n);
        AadIsOnly(hdr, a);
      }
    }
  }

  /** What is emitted for a frame: the header, and the payload sealed behind it. */
  ghost predicate Emits(aes: Cipher, frame: Octets, hdrlen: nat, pn: Octets, keyid: bv8, f: Octets)
    requires 24 <= hdrlen <= |frame| && |pn| == 6
  {
    && |f| == |frame| + 16 && HeaderIs(frame, hdrlen, pn, keyid, f[..hdrlen + 8])
    && SealedBehind(aes, f[..hdrlen + 8], f[hdrlen..], frame[hdrlen..])
  }

  lemma FrameParts(h: Octets, c: Octets, hdrlen: nat)
    requires |h| == hdrlen + 8
    ensures (h + c)[..hdrlen + 8] == h && (h + c)[hdrlen..] == h[hdrlen..] + c
  {
  }

  lemma SealedIsBehind(aes: Cipher, h: Octets, ccmp: Octets, m: Octets)
    requires Reaches(h) && |ccmp| == 8
    ensures |h| >= HeaderReach(GetLe16(h, 0))
    ensures SealedBehind(aes, h, ccmp + Seal(aes, NonceOf(h, ccmp), Aad(h), m), m)
  {
    ReachIs(h);
    hide Reaches, HeaderReach, GetLe16, Aad, Open, Seal, SealedBehind;
    var c := Seal(aes, NonceOf(h, ccmp), Aad(h), m);
    var data := ccmp + c;
    assert data[8..] == c && Pn(data) == Pn(ccmp);
    OpenSeal(aes, NonceOf(h, ccmp), Aad(h), m);
    UnprotectOctets(aes, h, data, m);
  }

  lemma ProtectOctets(aes: Cipher, frame: Octets, hdrlen: nat, pn: Octets, keyid: bv8)
    requires 24 <= hdrlen <= |frame| && |pn| == 6
    ensures Emits(aes, frame, hdrlen, pn, keyid, Protect(aes, frame, hdrlen, pn, keyid))
  {
    var h, m := ProtectedHeader(frame, hdrlen, pn, keyid), frame[hdrlen..];
    HeaderOctets(frame, hdrlen, pn, keyid);
    ReachIs(h);
    hide ProtectedHeader, NonceOf, Aad, Seal, HeaderIs, Reaches, SealedBehind, Unprotect, CcmpHeader;
    FrameParts(h, Seal(aes, NonceOf(h, h[hdrlen..]), Aad(h), m), hdrlen);
    SealedIsBehind(aes, h, h[hdrlen..], m);
  }

  /** AAD and nonce look at no more than the first 32 bytes, and the first 8 of the body. */
  lemma HeaderPrefix(h: Octets, frame: Octets, data: Octets, body: Octets)
    requires 32 <= |h| <= |frame| && frame[..|h|] == h
    requires 8 <= |data| <= |body| && body[..8] == data[..8]
    ensures Aad(frame) == Aad(h) && NonceOf(frame, body) == NonceOf(h, data)
  {
    assert forall i | 0 <= i < |h| :: frame[i] == frame[..|h|][i];
    assert forall i | 0 <= i < 8 :: body[i] == body[..8][i] == data[..8][i] == data[i];
    assert GetLe16(frame, 0) == GetLe16(h, 0) && GetLe16(frame, 22) == GetLe16(h, 22);
    hide GetLe16;
    assert frame[4..22] == h[4..22] && frame[10..16] == h[10..16] && frame[24..30] == h[24..30];
  }

  /**
    The CCMP round trip: the body of a frame emitted by `ccmp_encrypt`, opened under the
    header it was emitted with, gives exactly the payload, and its header carries the packet
    number, for every block function, header, packet number, key ID and payload.
   */
  lemma RoundTrip(aes: Cipher, frame: Octets, hdrlen: nat, pn: Octets, keyid: bv8)
    requires 24 <= hdrlen <= |frame| && |pn| == 6
    ensures var f := Protect(aes, frame, hdrlen, pn, keyid);
            && |f| == |frame| + 16
            && Unprotect(aes, f, f[hdrlen..]) == Some(frame[hdrlen..])
            && Pn(f[hdrlen..]) == pn
  {
    var h := ProtectedHeader(frame, hdrlen, pn, keyid);
    var m := frame[hdrlen..];
    hide ProtectedHeader, Aad, NonceOf, CcmpHeader, Seal, Unprotect;
    var sealed := Seal(aes, NonceOf(h, h[hdrlen..]), Aad(h), m);
    BodySlices(h, sealed, hdrlen);
    OpensBehindHeader(aes, h, hdrlen, m);
    PnOfPrefix((h + sealed)[hdrlen..]);
  }

  lemma PnOfPrefix(data: Octets)
    requires |data| >= 8
    ensures Pn(data) == Pn(data[..8])
  {
  }

  lemma BodySlices(h: Octets, sealed: Octets, hdrlen: nat)
    requires |h| == hdrlen + 8
    ensures var data := (h + sealed)[hdrlen..];
            |data| == 8 + |sealed| && data[..8] == h[hdrlen..] && data[8..] == sealed
    ensures (h + sealed)[..|h|] == h
  {
    assert (h + sealed)[hdrlen..] == h[hdrlen..] + sealed;
  }

  lemma OpensBehindHeader(aes: Cipher, h: Octets, hdrlen: nat, m: Octets)
    requires hdrlen >= 24 && |h| == hdrlen + 8
    ensures var f := h + Seal(aes, NonceOf(h, h[hdrlen..]), Aad(h), m);
            Unprotect(aes, f, f[hdrlen..]) == Some(m)
  {
    hide Aad, NonceOf, Open, Seal;
    var nonce, aad := NonceOf(h, h[hdrlen..]), Aad(h);
    var sealed := Seal(aes, nonce, aad, m);
    BodySlices(h, sealed, hdrlen);
    HeaderPrefix(h, h + sealed, h[hdrlen..], (h + sealed)[hdrlen..]);
    OpenSeal(aes, nonce, aad, m);
  }

  /** Two headers that differ only in what a retransmission may change. */
  ghost predicate SameButRetransmitted(h1: Octets, h2: Octets) {
    && |h1| == |h2| >= 32
    && GetLe16(h1, 0) & 0xc7ff == GetLe16(h2, 0) & 0xc7ff  // all but Retry, Power Management, More Data
    && h1[4..22] == h2[4..22]
    && GetLe16(h1, 22) & 0x000f == GetLe16(h2, 22) & 0x000f
    && h1[24..] == h2[24..]
  }

  lemma ImmutableBits(f: bv16)
    ensures MaskedFc(f) == MaskedFc(f & 0xc7ff)
    ensures FourAddress(f) == FourAddress(f & 0xc7ff)
    ensures QosData(f) == QosData(f & 0xc7ff) && FcType(f) == FcType(f & 0xc7ff)
  {
  }

  lemma SameFixed(h1: Octets, h2: Octets)
    requires SameButRetransmitted(h1, h2)
    ensures AadFixed(h1) == AadFixed(h2)
  {
    ImmutableBits(GetLe16(h1, 0));
    ImmutableBits(GetLe16(h2, 0));
    var s, t := GetLe16(h1, 22), GetLe16(h2, 22);
    assert s & !0xfff0 == t & !0xfff0;
  }

  lemma SameFields(h1: Octets, h2: Octets)
    requires SameButRetransmitted(h1, h2)
    ensures var f, g := GetLe16(h1, 0), GetLe16(h2, 0);
            FourAddress(f) == FourAddress(g) && QosData(f) == QosData(g) && FcType(f) == FcType(g)
    ensures h1[24..30] == h2[24..30] && h1[10..16] == h2[10..16]
    ensures forall i | 24 <= i < |h1| :: h1[i] == h2[i]
  {
    ImmutableBits(GetLe16(h1, 0));
    ImmutableBits(GetLe16(h2, 0));
    hide GetLe16, FourAddress, QosData, FcType;
    forall i | 24 <= i < |h1| ensures h1[i] == h2[i] {
      assert h1[i] == h1[24..][i - 24];
      assert h2[i] == h2[24..][i - 24];
    }
    assert h1[10..16] == h1[4..22][6..12];
    assert h2[10..16] == h2[4..22][6..12];
  }

  /**
    Retry, power-management and more-data bits, duration and sequence number do not take
    part in the authentication: a retransmission opens exactly like the original.
   */
  lemma RetransmissionOpens(aes: Cipher, h1: Octets, h2: Octets, data: Octets)
    requires SameButRetransmitted(h1, h2)
    ensures Unprotect(aes, h1, data) == Unprotect(aes, h2, data)
  {
    SameFields(h1, h2);
    SameFixed(h1, h2);
    hide AadFixed, FourAddress, QosData, FcType, GetLe16, Open, SameButRetransmitted;
    if |data| >= 16 {
      assert AadExtra(h1) == AadExtra(h2);
      assert NonceFlags(h1) == NonceFlags(h2);
    }
  }

  /** The start of both functions: the AAD buffer with its length prefix, and the nonce. */
  method AadAndNonce(hdr: Octets, data: Octets) returns (aad: array<Octet>, nonce: Nonce)
    requires |hdr| >= 24 && |hdr| >= HeaderReach(GetLe16(hdr, 0)) && |data| >= 8
    ensures fresh(aad) && aad.Length == 32
    ensures aad[..] == AadBuffer(Aad(hdr)) && nonce == NonceOf(hdr, data)
  {
    aad := new Octet[32](_ => 0);
    var buf := new Octet[13];
    var aadLen := CcmpAadNonce(hdr, data, aad, buf);
    nonce := buf[..];
    hide Aad, NonceOf, Be16;
    ghost var a := Aad(hdr);
    Copy(aad, 0, Be16(aadLen));
    assert aad[..] == Put(Put(Zeros(32), 2, a), 0, Be16(|a|));
    PutBuffer(a, Be16(|a|));
  }

  lemma PutBuffer(a: Octets, len: Octets)
    requires |a| <= 30 && |len| == 2
    ensures Put(Put(Zeros(32), 2, a), 0, len) == len + a + Zeros(30 - |a|)
  {
  }

  /** The first counter block: L', nonce, and a counter still to be filled in. */
  method CounterBlock(nonce: Nonce) returns (a: array<Octet>)
    ensures fresh(a) && a.Length == 16 && a[..14] == [0x01] + nonce
  {
    a := new Octet[16](_ => 0);
    a[0] := 0x01;
    Copy(a, 1, nonce);
  }

  /** Write the header with the Protected bit, and the CCMP header. */
  method PutHeaders(frame: Octets, hdrlen: nat, pn: Octets, keyid: bv8, crypt: array<Octet>)
    requires 24 <= hdrlen <= |frame| && |pn| == 6 && hdrlen + 8 <= crypt.Length
    modifies crypt
    ensures crypt[..hdrlen + 8] == ProtectedHeader(frame, hdrlen, pn, keyid)
  {
    hide GetLe16;
    Copy(crypt, 0, frame[..hdrlen]);
    Copy(crypt, 0, Le16(GetLe16(frame, 0) | WLAN_FC_ISWEP));
    Copy(crypt, hdrlen, [pn[5], pn[4], 0x00, 0x20 | (keyid << 6), pn[3], pn[2], pn[1], pn[0]]);
  }

  /** `U = T XOR S_0`, written to `dst` at `at`. */
  method PutAuthValue(aes: Cipher, a: array<Octet>, ghost nonce: Nonce, x: array<Octet>, dst: array<Octet>, at: nat)
    requires a.Length == 16 && x.Length == 16 && a != x && a != dst && x != dst
    requires a[..14] == [0x01] + nonce && at + 8 <= dst.Length
    modifies a, dst
    ensures dst[..at] == old(dst[..at])
    ensures dst[at..at + 8] == AuthValue(aes, nonce, x[..])
  {
    var b := new Octet[16];
    PutKeyBlock(aes, a, nonce, 0, b, 0);
    assert b[..] == aes(A(nonce, 0));
    hide Flip;
    forall i | 0 <= i < 8 {
      dst[at + i] := Flip(x[i], b[i]);
    }
    assert forall i | 0 <= i < 8 :: dst[at..at + 8][i] == Flip(x[..][..8][i], aes(A(nonce, 0))[..8][i]);
  }

  /** Encrypt the payload at `at`, and append the authentication value of the MAC in `x`. */
  method EncryptPayload(aes: Cipher, nonce: Nonce, x: array<Octet>, m: Octets, dst: array<Octet>, at: nat)
    requires x.Length == 16 && x != dst && at + |m| + 16 <= dst.Length
    modifies dst
    ensures dst[..at] == old(dst[..at])
    ensures dst[at..at + |m| + 8] == Ctr(aes, nonce, m) + AuthValue(aes, nonce, x[..])
  {
    hide Ctr, AuthValue;
    var a := CounterBlock(nonce);
    CtrLoop(aes, a, nonce, m, dst, at);
    ghost var c := dst[..at + |m|];
    PutAuthValue(aes, a, nonce, x, dst, at + |m|);
    assert dst[..at + |m|] == c;
    assert dst[..at] == c[..at] && dst[at..at + |m|] == c[at..];
    assert dst[at..at + |m| + 8] == dst[at..at + |m|] + dst[at + |m|..at + |m| + 8];
  }

  /** The MAC of the payload `m` under the headers `h` at the start of the frame buffer `f`. */
  method MacOfFrame(aes: Cipher, f: Octets, hdrlen: nat, ghost h: Octets, m: Octets)
    returns (nonce: Nonce, x: array<Octet>)
    requires 24 <= hdrlen && |h| == hdrlen + 8 <= |f| && f[..hdrlen + 8] == h
    ensures fresh(x) && x.Length == 16
    ensures nonce == NonceOf(h, h[hdrlen..]) && x[..] == Mac(aes, nonce, Aad(h), m)
  {
    var data := f[hdrlen..];
    assert data[..8] == h[hdrlen..][..8];
    HeaderPrefix(h, f, h[hdrlen..], data);
    assert HeaderReach(GetLe16(f, 0)) <= 32;
    hide Aad, NonceOf, AadBuffer, Mac, HeaderReach, GetLe16;
    var aad;
    aad, nonce := AadAndNonce(f, data);
    x := new Octet[16];
    Authenticate(aes, nonce, aad, Aad(h), m, x);
  }

  /** Authenticate and encrypt the payload behind the headers `h` already in `crypt`. */
  method SealBody(aes: Cipher, frame: Octets, hdrlen: nat, ghost h: Octets, crypt: array<Octet>)
    requires 24 <= hdrlen <= |frame| && crypt.Length == |frame| + 32
    requires |h| == hdrlen + 8 && crypt[..hdrlen + 8] == h
    modifies crypt
    ensures crypt[..|frame| + 16] == h + Seal(aes, NonceOf(h, h[hdrlen..]), Aad(h), frame[hdrlen..])
  {
    hide Aad, NonceOf, Mac, Ctr, AuthValue;
    var m := frame[hdrlen..];
    assert crypt[..][..hdrlen + 8] == h;
    var nonce, x := MacOfFrame(aes, crypt[..], hdrlen, h, m);
    EncryptPayload(aes, nonce, x, m, crypt, hdrlen + 8);
    assert crypt[..|frame| + 16] == crypt[..hdrlen + 8] + crypt[hdrlen + 8..hdrlen + 8 + |m| + 8];
  }

  /** Headers and body. */
  method EncryptFrame(aes: Cipher, frame: Octets, hdrlen: nat, pn: Octets, keyid: bv8) returns (crypt: array<Octet>)
    requires 24 <= hdrlen <= |frame| && |pn| == 6
    ensures fresh(crypt) && crypt.Length == |frame| + 32
    ensures crypt[..|frame| + 16] == Protect(aes, frame, hdrlen, pn, keyid)
  {
    crypt := new Octet[|frame| + 8 + 8 + 16];
    PutHeaders(frame, hdrlen, pn, keyid, crypt);
    hide ProtectedHeader, Seal, Aad, NonceOf;
    SealBody(aes, frame, hdrlen, ProtectedHeader(frame, hdrlen, pn, keyid), crypt);
  }

  /** `ccmp_encrypt` */
  method CcmpEncrypt(aes: Cipher, frame: Octets, hdrlen: nat, pn: Octets, keyid: bv8)
    returns (crypt: array?<Octet>, encryptedLen: nat)
    requires |pn| == 6
    ensures crypt == null <==> |frame| < hdrlen || hdrlen < 24
    ensures crypt != null ==>
              && fresh(crypt) && encryptedLen == |frame| + 16 <= crypt.Length
              && crypt[..encryptedLen] == Protect(aes, frame, hdrlen, pn, keyid)
              && Emits(aes, frame, hdrlen, pn, keyid, crypt[..encryptedLen])
  {
    hide *;
    if |frame| < hdrlen || hdrlen < 24 {
      return null, 0;
    }
    ProtectOctets(aes, frame, hdrlen, pn, keyid);
    crypt := EncryptFrame(aes, frame, hdrlen, pn, keyid);
    encryptedLen := |frame| + 16;
  }

  /** `ccmp_decrypt` */
  method CcmpDecrypt(aes: Cipher, hdr: Octets, data: Octets) returns (plain: array?<Octet>, decryptedLen: nat)
    requires |hdr| >= 24 && |hdr| >= HeaderReach(GetLe16(hdr, 0))
    ensures plain == null <==> Unprotect(aes, hdr, data) == None
    ensures plain != null ==>
              && fresh(plain) && decryptedLen <= plain.Length
              && Unprotect(aes, hdr, data) == Some(plain[..decryptedLen])
              && SealedBehind(aes, hdr, data, plain[..decryptedLen])
    ensures plain == null ==> forall m :: !SealedBehind(aes, hdr, data, m)
  {
    ReachIs(hdr);
    forall m ensures Unprotect(aes, hdr, data) == Some(m) <==> SealedBehind(aes, hdr, data, m) {
      UnprotectOctets(aes, hdr, data, m);
    }
    hide SealedBehind;
    if |data| < 16 {
      return null, 0;
    }
    plain := new Octet[|data| + 16];
    var c := data[8..|data| - 8];
    var aad, nonce := AadAndNonce(hdr, data);
    hide Aad, NonceOf, AadBuffer, Mac, Ctr, HeaderReach, GetLe16;
    var a := CounterBlock(nonce);
    var mic := data[|data| - 8..];
    var t := RecoverTag(aes, a, nonce, mic);
    CtrLoop(aes, a, nonce, c, plain, 0);
    var x := new Octet[16];
    Authenticate(aes, nonce, aad, Aad(hdr), plain[..|c|], x);
    assert data[8..][..|data| - 16] == c && data[8..][|data| - 16..] == mic;
    assert plain[0..|c|] == plain[..|c|];
    TagMatches(aes, nonce, x[..], mic);
    if x[..8] != t {
      return null, 0;
    }
    decryptedLen := |c|;
  }

  /** `T = U XOR S_0` */
  method RecoverTag(aes: Cipher, a: array<Octet>, ghost nonce: Nonce, mic: Octets) returns (t: Octets)
    requires a.Length == 16 && a[..14] == [0x01] + nonce && |mic| == 8
    modifies a
    ensures a[..14] == [0x01] + nonce
    ensures t == Xor(mic, aes(A(nonce, 0))[..8])
  {
    var x := new Octet[16];
    PutKeyBlock(aes, a, nonce, 0, x, 0);
    assert x[..] == aes(A(nonce, 0));
    t := Xor(mic, x[..8]);
  }

  /** Comparing tags is comparing authentication values. */
  lemma TagMatches(aes: Cipher, nonce: Nonce, tag: Block, mic: Octets)
    requires |mic| == 8
    ensures tag[..8] == Xor(mic, aes(A(nonce, 0))[..8]) <==> AuthValue(aes, nonce, tag) == mic
  {
    var s := aes(A(nonce, 0))[..8];
    XorTwice(mic, s);
    XorTwice(tag[..8], s);
  }
}
