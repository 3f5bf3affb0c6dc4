/**
  The broadcast integrity protocol: MMIE frames as `wlantest_inject_bip` (inject.c) builds them
  and as `check_mmie_mic` and `check_bip` (rx_mgmt.c) check them.  AES-128-CMAC is a parameter.
 */
module Bip {
  import opened Octets
  import opened Ccmp
  import opened Counters

  const WLAN_EID_MMIE: Octet := 76

  type Tag16 = t: Octets | |t| == 16 witness Zeros(16)

  /** `omac1_aes_128`: key and data to a 16-octet code. */
  type Omac = (Octets, Octets) -> Tag16

  /** An integrity packet number, most significant octet first. */
  type Ipn = s: Octets | |s| == 6 witness Zeros(6)

  /** A management frame with room for its header and the MIC. */
  type Frame = s: Octets | |s| >= 24 + 8 witness Zeros(32)

  /** The frame control field without the bits a retransmission may change. */
  function BipFc(fc: bv16): bv16 {
    fc & !(WLAN_FC_RETRY | WLAN_FC_PWRMGT | WLAN_FC_MOREDATA)
  }

  /** "AAD || Frame Body(masked)": masked frame control, addresses, and the body with a zero MIC. */
  function MaskedBody(data: Frame): (buf: Octets)
    ensures |buf| == |data| - 4
  {
    Le16(BipFc(GetLe16(data, 0))) + data[4..22] + data[24..|data| - 8] + Zeros(8)
  }

  /** The MIC a frame should carry. */
  function MmieMic(omac: Omac, igtk: Octets, data: Frame): (mic: Octets)
    ensures |mic| == 8
  {
    omac(igtk, MaskedBody(data))[..8]
  }

  /** A frame that carries the MIC it should. */
  predicate MicOk(omac: Omac, igtk: Octets, data: Frame) {
    data[|data| - 8..] == MmieMic(omac, igtk, data)
  }

  /** A management MIC element whose MIC is still zero. */
  function Mmie(keyid: bv16, ipn: Ipn): (e: Octets)
    ensures |e| == 10
  {
    [WLAN_EID_MMIE, 16] + Le16(keyid) + ipn
  }

  /** The protected frame (section 11.14 of IEEE Std 802.11w-2009). */
  function Protect(omac: Omac, igtk: Octets, frame: Octets, keyid: bv16, ipn: Ipn): (prot: Frame)
    requires |frame| >= 24
    ensures |prot| == |frame| + 18
  {
    var open := frame + Mmie(keyid, ipn) + Zeros(8);
    frame + Mmie(keyid, ipn) + MmieMic(omac, igtk, open)
  }

  // ---- The MIC is computed over the same octets on both sides.

  lemma SameMaskedBody(a: Frame, b: Frame)
    requires |a| == |b| && a[..|a| - 8] == b[..|b| - 8]
    ensures MaskedBody(a) == MaskedBody(b)
  {
    var n := |a| - 8;
    assert a[0] == a[..n][0] == b[0] && a[1] == a[..n][1] == b[1];
    SameFc(a, b);
    hide Le16, BipFc, GetLe16;
    assert a[4..22] == a[..n][4..22] == b[4..22];
    assert a[24..n] == a[..n][24..] == b[24..n];
  }

  lemma SameFc(a: Octets, b: Octets)
    requires |a| >= 2 && |b| >= 2 && a[0] == b[0] && a[1] == b[1]
    ensures GetLe16(a, 0) == GetLe16(b, 0)
  {
    hide Pack16;
  }

  /**
    The round trip: the frame built with a key passes the check with that key, for every frame
    of at least 24 octets, key, key ID, packet number and CMAC.
   */
  lemma ProtectedPasses(omac: Omac, igtk: Octets, frame: Octets, keyid: bv16, ipn: Ipn)
    requires |frame| >= 24
    ensures MicOk(omac, igtk, Protect(omac, igtk, frame, keyid, ipn))
  {
    hide MaskedBody, Mmie;
    var open := frame + Mmie(keyid, ipn) + Zeros(8);
    var prot := Protect(omac, igtk, frame, keyid, ipn);
    assert prot[..|prot| - 8] == frame + Mmie(keyid, ipn) == open[..|open| - 8];
    assert prot[|prot| - 8..] == MmieMic(omac, igtk, open);
    SameMaskedBody(prot, open);
  }

  /** The only MIC that passes behind given octets is the one the sender computes. */
  lemma PassesOnlyProtected(omac: Omac, igtk: Octets, frame: Octets, keyid: bv16, ipn: Ipn, mic: Octets)
    requires |frame| >= 24 && |mic| == 8
    ensures MicOk(omac, igtk, frame + Mmie(keyid, ipn) + mic) <==>
            frame + Mmie(keyid, ipn) + mic == Protect(omac, igtk, frame, keyid, ipn)
  {
    hide MaskedBody, Mmie;
    var open := frame + Mmie(keyid, ipn) + Zeros(8);
    var prot := frame + Mmie(keyid, ipn) + mic;
    assert prot[..|prot| - 8] == frame + Mmie(keyid, ipn) == open[..|open| - 8];
    assert prot[|prot| - 8..] == mic;
    SameMaskedBody(prot, open);
    var sent := Protect(omac, igtk, frame, keyid, ipn);
    assert sent[|sent| - 8..] == MmieMic(omac, igtk, open);
  }

  // ---- The octets the MIC is computed over

  /** The header without its duration, the changing bits masked, and the body with a zero MIC. */
  ghost predicate IsMaskedBody(data: Frame, buf: Octets) {
    && |buf| == |data| - 4
    && buf[0] == data[0] && buf[1] == data[1] & 0xc7
    && buf[2..20] == data[4..22] && buf[20..|buf| - 8] == data[24..|data| - 8]
    && forall i | |buf| - 8 <= i < |buf| :: buf[i] == 0
  }

  lemma BipFcOctets(lo: Octet, hi: Octet)
    ensures var m := Le16(BipFc(Pack16(lo, hi))); |m| == 2 && m[0] == lo && m[1] == hi & 0xc7
  {
  }

  lemma MaskedBodyOctets(data: Frame)
    ensures IsMaskedBody(data, MaskedBody(data))
  {
    BipFcOctets(data[0], data[1]);
    hide Le16, BipFc, Pack16;
    var buf := MaskedBody(data);
    assert buf[2..20] == data[4..22];
    assert buf[20..|buf| - 8] == data[24..|data| - 8];
  }

  lemma MaskedBodyOnly(data: Frame, buf: Octets)
    requires IsMaskedBody(data, buf)
    ensures buf == MaskedBody(data)
  {
    MaskedBodyOctets(data);
    var other := MaskedBody(data);
    hide MaskedBody;
    var n := |buf| - 8;
    assert buf[..2] == other[..2] && buf[n..] == other[n..];
    assert buf == buf[..2] + buf[2..20] + buf[20..n] + buf[n..];
    assert other == other[..2] + other[2..20] + other[20..n] + other[n..];
  }

  /** A frame is accepted exactly if it ends in the first eight octets of the code of those octets. */
  lemma MicOctets(omac: Omac, igtk: Octets, data: Frame)
    ensures MicOk(omac, igtk, data)
            <==> exists buf :: IsMaskedBody(data, buf) && data[|data| - 8..] == omac(igtk, buf)[..8]
  {
    MaskedBodyOctets(data);
    forall buf | IsMaskedBody(data, buf) ensures buf == MaskedBody(data) {
      MaskedBodyOnly(data, buf);
    }
    hide MaskedBody, IsMaskedBody;
  }

  /** The frame that is built: the element, its length, key ID and packet number, and that MIC. */
  lemma ProtectOctets(omac: Omac, igtk: Octets, frame: Octets, keyid: bv16, ipn: Ipn)
    requires |frame| >= 24
    ensures var prot, n := Protect(omac, igtk, frame, keyid, ipn), |frame|;
            && |prot| == n + 18 && prot[..n] == frame
            && prot[n..n + 4] == [76, 16, (keyid & 0xff) as bv8, (keyid >> 8) as bv8] && prot[n + 4..n + 10] == ipn
            && exists buf :: IsMaskedBody(prot, buf) && prot[n + 10..] == omac(igtk, buf)[..8]
  {
    ProtectedPasses(omac, igtk, frame, keyid, ipn);
    MicOctets(omac, igtk, Protect(omac, igtk, frame, keyid, ipn));
    hide MaskedBody, IsMaskedBody;
    var prot := Protect(omac, igtk, frame, keyid, ipn);
    assert prot[|frame|..|frame| + 10] == Mmie(keyid, ipn);
  }

  // ---- The methods

  /** `buf` of `check_mmie_mic`, and of `wlantest_inject_bip` where `data` ends in a zero MIC. */
  method FillMaskedBody(data: Frame, buf: array<Octet>)
    requires buf.Length == |data| + 20 - 24
    modifies buf
    ensures buf[..] == MaskedBody(data)
  {
    hide GetLe16, BipFc, Le16;
    LengthLe16(BipFc(GetLe16(data, 0)));
    var fc := GetLe16(data, 0);
    fc := BipFc(fc);
    Copy(buf, 0, Le16(fc));
    Copy(buf, 2, data[4..22]);
    Copy(buf, 20, data[24..|data| - 8]);
    Copy(buf, 20 + |data| - 24 - 8, Zeros(8));
  }

  lemma LengthLe16(x: bv16)
    ensures |Le16(x)| == 2
  {
  }

  /** `check_mmie_mic` */
  method CheckMmieMic(omac: Omac, igtk: Octets, data: Frame) returns (ok: bool)
    ensures ok <==> MicOk(omac, igtk, data)
    ensures ok <==> exists buf :: IsMaskedBody(data, buf) && data[|data| - 8..] == omac(igtk, buf)[..8]
  {
    MicOctets(omac, igtk, data);
    hide IsMaskedBody;
    var buf := new Octet[|data| + 20 - 24];
    FillMaskedBody(data, buf);
    hide MaskedBody;
    var mic := omac(igtk, buf[..]);
    ok := data[|data| - 8..] == mic[..8];
  }

  /** The frame that `wlantest_inject_bip` hands on; `ipn` is the stored packet number. */
  method BuildProtected(omac: Omac, igtk: Octets, frame: Octets, keyid: bv16, ipn: array<Octet>)
    returns (prot: array<Octet>)
    requires |frame| >= 24 && ipn.Length == 6
    modifies ipn
    ensures ipn[..] == Inc(old(ipn[..]))
    ensures fresh(prot) && prot[..] == Protect(omac, igtk, frame, keyid, Inc(old(ipn[..])))
  {
    IncByteArray(ipn);
    hide Inc, MmieMic, Mmie;
    prot := new Octet[|frame| + 18];
    Copy(prot, 0, frame);
    PutMmie(prot, |frame|, keyid, ipn[..]);
    ghost var open := frame + Mmie(keyid, ipn[..]) + Zeros(8);
    assert prot[..] == open;
    FinishMic(omac, igtk, prot);
    assert open[..|open| - 8] == frame + Mmie(keyid, ipn[..]);
  }

  /** The MMIE with a zero MIC, at the end of the frame. */
  method PutMmie(prot: array<Octet>, at: nat, keyid: bv16, ipn: Ipn)
    requires prot.Length == at + 18
    modifies prot
    ensures prot[..] == old(prot[..])[..at] + Mmie(keyid, ipn) + Zeros(8)
  {
    hide Le16;
    LengthLe16(keyid);
    Copy(prot, at, [WLAN_EID_MMIE, 16]);
    Copy(prot, at + 2, Le16(keyid));
    Copy(prot, at + 4, ipn);
    Copy(prot, at + 10, Zeros(8));
  }

  /** The MIC put where the zeros are. */
  method FinishMic(omac: Omac, igtk: Octets, prot: array<Octet>)
    requires prot.Length >= 32 && prot[prot.Length - 8..] == Zeros(8)
    modifies prot
    ensures prot[..] == old(prot[..])[..prot.Length - 8] + MmieMic(omac, igtk, old(prot[..]))
  {
    var buf := new Octet[prot.Length + 20 - 24];
    FillMaskedBody(prot[..], buf);
    hide MaskedBody;
    var mic := omac(igtk, buf[..]);
    Copy(prot, prot.Length - 8, mic[..8]);
  }

  // ---- What the receiver reads back

  /** The MMIE of a frame, where `check_bip` looks for it. */
  predicate HasMmie(data: Octets) {
    |data| >= 24 + 18 && data[|data| - 18] == WLAN_EID_MMIE && data[|data| - 17] == 16
  }

  /** The key ID with its reserved bits dropped. */
  function KeyId(data: Octets): bv16
    requires |data| >= 18
  {
    GetLe16(data, |data| - 16) & 0x0fff
  }

  function IpnOf(data: Octets): Ipn
    requires |data| >= 18
  {
    data[|data| - 14..|data| - 8]
  }

  lemma GetPutLe16(s: Octets, at: nat, x: bv16)
    requires at + 2 <= |s| && s[at] == (x & 0xff) as bv8 && s[at + 1] == (x >> 8) as bv8
    ensures GetLe16(s, at) == x
  {
  }

  lemma SmallKeyId(x: bv16)
    requires x < 6
    ensures x & 0x0fff == x
  {
  }

  /** The receiver finds the MMIE, the key ID and the packet number the sender put in. */
  lemma ProtectedFields(omac: Omac, igtk: Octets, frame: Octets, keyid: bv16, ipn: Ipn)
    requires |frame| >= 24 && keyid < 6
    ensures var prot := Protect(omac, igtk, frame, keyid, ipn);
            HasMmie(prot) && KeyId(prot) == keyid && IpnOf(prot) == ipn
  {
    hide MmieMic;
    var prot := Protect(omac, igtk, frame, keyid, ipn);
    var e := Mmie(keyid, ipn);
    assert prot[|frame|..|frame| + 10] == e;
    assert prot[|frame|] == e[0] && prot[|frame| + 1] == e[1] && prot[|frame| + 2] == e[2] && prot[|frame| + 3] == e[3];
    GetPutLe16(prot, |frame| + 2, keyid);
    SmallKeyId(keyid);
    assert prot[|frame| + 4..|frame| + 10] == e[4..10] == ipn;
  }
}
