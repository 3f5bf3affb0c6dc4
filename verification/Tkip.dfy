/**
  Opening TKIP frames (`tkip_decrypt` in tkip.c): per-packet key mixing, RC4, the integrity
  check value and the Michael code, in that order.
 */
module Tkip {
  import opened Options
  import opened Octets
  import opened TkipMixing
  import opened Ccmp
  import Michael
  import Rc4
  import Wep
  import Crc

  /** The whole temporal key: 16 octets for RC4, and two Michael keys of 8. */
  type Tk = k: Octets | |k| == 32 witness Zeros(32)

  predicate ToDs(fc: bv16) { fc & WLAN_FC_TODS != 0 }

  predicate FromDs(fc: bv16) { fc & WLAN_FC_FROMDS != 0 }

  /** A frame header as far as it is looked at. */
  type Header = h: Octets | |h| >= 24 && |h| >= HeaderReach(GetLe16(h, 0)) witness Zeros(24)

  /** The destination of a data frame: address 3 on the way to the distribution system. */
  function Destination(hdr: Header): (da: Octets)
    ensures |da| == 6
  {
    if ToDs(GetLe16(hdr, 0)) then hdr[16..22] else hdr[4..10]
  }

  /** The source: address 2, unless the frame comes from the distribution system. */
  function Source(hdr: Header): (sa: Octets)
    ensures |sa| == 6
  {
    var fc := GetLe16(hdr, 0);
    if !FromDs(fc) then hdr[10..16]
    else if !ToDs(fc) then hdr[16..22]
    else
      ReachesAddress4(hdr);
      hdr[24..30]
  }

  lemma TwoBits(fc: bv16)
    ensures fc & 0x300 == 0x300 <==> fc & 0x100 != 0 && fc & 0x200 != 0
    ensures fc & 0x300 == 0x100 <==> fc & 0x100 != 0 && !(fc & 0x200 != 0)
    ensures fc & 0x300 == 0x200 <==> !(fc & 0x100 != 0) && fc & 0x200 != 0
  {
  }

  lemma BitsAre(fc: bv16)
    ensures FourAddress(fc) <==> fc & 0x300 == 0x300
    ensures ToDs(fc) <==> fc & 0x100 != 0
    ensures FromDs(fc) <==> fc & 0x200 != 0
  {
    var tods: bv16, fromds: bv16 := WLAN_FC_TODS, WLAN_FC_FROMDS;
    assert tods | fromds == 0x300;
  }

  lemma BothBits(fc: bv16)
    ensures FourAddress(fc) <==> ToDs(fc) && FromDs(fc)
  {
    BitsAre(fc);
    TwoBits(fc);
    hide FourAddress, ToDs, FromDs;
  }

  lemma ReachesAddress4(hdr: Header)
    requires ToDs(GetLe16(hdr, 0)) && FromDs(GetLe16(hdr, 0))
    ensures |hdr| >= 30
  {
    BothBits(GetLe16(hdr, 0));
  }

  function Priority(hdr: Header): Octet {
    if QosData(GetLe16(hdr, 0)) then hdr[QosAt(GetLe16(hdr, 0))] & 0x0f else 0
  }

  /** The Michael pseudo header: destination, source, priority and three zero octets. */
  function MichaelHeader(hdr: Header): Michael.MicHeader {
    Destination(hdr) + Source(hdr) + [Priority(hdr), 0, 0, 0]
  }

  /** Which half of the Michael keys: frames from the access point use the first. */
  function MicKey(tk: Tk, hdr: Header): Michael.MicKey {
    if FromDs(GetLe16(hdr, 0)) then tk[16..24] else tk[24..32]
  }

  function TransmitterAddress(hdr: Header): Address { hdr[10..16] }

  function MicOf(tk: Tk, hdr: Header, m: Octets): (mic: Octets)
    ensures |mic| == 8
  {
    Michael.Mic(MicKey(tk, hdr), MichaelHeader(hdr), m)
  }

  /** IV16 and IV32 as carried by the eight octets in front of the payload. */
  function Iv16(data: Octets): bv16
    requires |data| >= 8
  {
    Mk16(data[0], data[2])
  }

  function Iv32(data: Octets): bv32
    requires |data| >= 8
  {
    GetLe32(data, 4)
  }

  function KeyFor(S: SubBox, tk: Tk, hdr: Header, data: Octets): (key: Octets)
    requires |data| >= 8
    ensures |key| == 16
  {
    PacketKey(S, tk[..16], TransmitterAddress(hdr), Iv32(data), Iv16(data))
  }

  /** TKIP encapsulation (section 8.3.2.1 of IEEE Std 802.11-2007) behind the IV octets `iv`. */
  function Seal(S: SubBox, tk: Tk, hdr: Header, iv: Octets, m: Octets): (data: Octets)
    requires |iv| == 8
    ensures |data| == |m| + 20
  {
    var msdu := m + MicOf(tk, hdr, m);
    iv + Rc4.Rc4(KeyFor(S, tk, hdr, iv), msdu + Wep.Icv(msdu))
  }

  /** What is under the encryption. */
  function Plain(S: SubBox, tk: Tk, hdr: Header, data: Octets): (plain: Octets)
    requires |data| >= 8
    ensures |plain| == |data| - 8
  {
    Rc4.Rc4(KeyFor(S, tk, hdr, data), data[8..])
  }

  /** The last eight octets are the Michael code of those before. */
  predicate Authentic(tk: Tk, hdr: Header, msdu: Octets)
    requires |msdu| >= 8
  {
    msdu[|msdu| - 8..] == MicOf(tk, hdr, msdu[..|msdu| - 8])
  }

  /** The checks after decryption, in the order the code makes them. */
  function Checked(tk: Tk, hdr: Header, plain: Octets): Option<Octets>
    requires |plain| >= 4
  {
    var msdu := plain[..|plain| - 4];
    if !Wep.Sound(plain) || |msdu| < 8 || !Authentic(tk, hdr, msdu) then None
    else Some(msdu[..|msdu| - 8])
  }

  function Open(S: SubBox, tk: Tk, hdr: Header, data: Octets): Option<Octets> {
    if |data| < 12 then None else Checked(tk, hdr, Plain(S, tk, hdr, data))
  }

  // ---- What opens is what was sealed.

  lemma KeyOfIv(S: SubBox, tk: Tk, hdr: Header, data: Octets)
    requires |data| >= 8
    ensures KeyFor(S, tk, hdr, data) == KeyFor(S, tk, hdr, data[..8])
  {
    hide PacketKey, Mk16;
    Iv32OfPrefix(data);
    hide GetLe32;
  }

  lemma Iv32OfPrefix(data: Octets)
    requires |data| >= 8
    ensures GetLe32(data, 4) == GetLe32(data[..8], 4)
  {
  }

  /** The round trip: what the standard's encapsulation makes is opened, whatever the S-box. */
  lemma SealedOpens(S: SubBox, tk: Tk, hdr: Header, iv: Octets, m: Octets)
    requires |iv| == 8
    ensures Open(S, tk, hdr, Seal(S, tk, hdr, iv, m)) == Some(m)
  {
    hide Rc4.Rc4, Wep.Icv, MicOf, KeyFor;
    var data := Seal(S, tk, hdr, iv, m);
    var msdu := m + MicOf(tk, hdr, m);
    var plain := msdu + Wep.Icv(msdu);
    assert data[..8] == iv && data[8..] == Rc4.Rc4(KeyFor(S, tk, hdr, iv), plain);
    KeyOfIv(S, tk, hdr, data);
    Rc4.Involution(KeyFor(S, tk, hdr, iv), plain);
    assert Plain(S, tk, hdr, data) == plain;
    ChecksPass(tk, hdr, m);
  }

  lemma ChecksPass(tk: Tk, hdr: Header, m: Octets)
    ensures var msdu := m + MicOf(tk, hdr, m);
            Checked(tk, hdr, msdu + Wep.Icv(msdu)) == Some(m)
  {
    hide Wep.Icv, MicOf;
    var msdu := m + MicOf(tk, hdr, m);
    var plain := msdu + Wep.Icv(msdu);
    assert plain[..|plain| - 4] == msdu && plain[|plain| - 4..] == Wep.Icv(msdu);
    assert msdu[..|msdu| - 8] == m && msdu[|msdu| - 8..] == MicOf(tk, hdr, m);
  }

  lemma ChecksMean(tk: Tk, hdr: Header, plain: Octets, m: Octets)
    requires |plain| >= 4 && Checked(tk, hdr, plain) == Some(m)
    ensures var msdu := m + MicOf(tk, hdr, m);
            plain == msdu + Wep.Icv(msdu)
  {
    hide Wep.Icv, MicOf;
    var msdu := plain[..|plain| - 4];
    assert msdu == m + MicOf(tk, hdr, m);
  }

  /** Nothing else opens: `tkip_decrypt` returns `m` exactly when the frame is the sealing of `m`. */
  lemma OpensExactlySealed(S: SubBox, tk: Tk, hdr: Header, data: Octets, m: Octets)
    ensures Open(S, tk, hdr, data) == Some(m) <==> |data| >= 20 && data == Seal(S, tk, hdr, data[..8], m)
  {
    hide Rc4.Rc4, Wep.Icv, MicOf, KeyFor, Checked;
    if Open(S, tk, hdr, data) == Some(m) {
      var plain := Plain(S, tk, hdr, data);
      ChecksMean(tk, hdr, plain, m);
      KeyOfIv(S, tk, hdr, data);
      Rc4.Involution(KeyFor(S, tk, hdr, data), data[8..]);
      assert data == data[..8] + data[8..];
    } else if |data| >= 20 && data == Seal(S, tk, hdr, data[..8], m) {
      SealedOpens(S, tk, hdr, data[..8], m);
    }
  }

  // ---- A frame that opens, in octets

  /** The pseudo header of Michael by the two DS bits: the addresses, the priority and three zeros. */
  ghost predicate PseudoHeader(hdr: Header, h: Octets) {
    && Reaches(hdr) && |h| == 16
    && (hdr[1] & 0x03 == 0x00 ==> h[..12] == hdr[4..10] + hdr[10..16])
    && (hdr[1] & 0x03 == 0x01 ==> h[..12] == hdr[16..22] + hdr[10..16])
    && (hdr[1] & 0x03 == 0x02 ==> h[..12] == hdr[4..10] + hdr[16..22])
    && (hdr[1] & 0x03 == 0x03 ==> h[..12] == hdr[16..22] + hdr[24..30])
    && h[12..] == [PriorityOf(hdr), 0, 0, 0]
  }

  /** Which octets of the key Michael uses: those behind the key for RC4, or the last eight. */
  function MicKeyOctets(tk: Tk, hdr: Header): Octets { if hdr[1] & 0x02 != 0 then tk[16..24] else tk[24..32] }

  lemma DsOctet(lo: Octet, hi: Octet)
    ensures var fc := Pack16(lo, hi); (ToDs(fc) <==> hi & 0x01 != 0) && (FromDs(fc) <==> hi & 0x02 != 0)
  {
  }

  lemma DsValues(hi: Octet)
    ensures hi & 0x03 == 0x00 <==> hi & 0x01 == 0 && hi & 0x02 == 0
    ensures hi & 0x03 == 0x01 <==> hi & 0x01 != 0 && hi & 0x02 == 0
    ensures hi & 0x03 == 0x02 <==> hi & 0x01 == 0 && hi & 0x02 != 0
    ensures hi & 0x03 == 0x03 <==> hi & 0x01 != 0 && hi & 0x02 != 0
  {
  }

  lemma PseudoHeaderIs(hdr: Header)
    ensures PseudoHeader(hdr, MichaelHeader(hdr))
  {
    ReachIs(hdr);
    DsOctet(hdr[0], hdr[1]);
    DsValues(hdr[1]);
    hide ToDs, FromDs, Pack16, HeaderReach, QosData, FourAddress;
    var h := MichaelHeader(hdr);
    assert h[..12] == Destination(hdr) + Source(hdr) && h[12..] == [Priority(hdr), 0, 0, 0];
  }

  lemma MicKeyIs(tk: Tk, hdr: Header)
    ensures MicKey(tk, hdr) == MicKeyOctets(tk, hdr)
  {
    DsOctet(hdr[0], hdr[1]);
    hide FromDs, Pack16;
  }

  /** The RC4 key comes from the two mixing phases, with the IV of the frame. */
  ghost predicate Mixed(S: SubBox, tk: Tk, hdr: Header, data: Octets, seed: Octets)
    requires |data| >= 8
  {
    var iv32, iv16 := GetLe32(data, 4), Pack16(data[2], data[0]);
    exists w, v ::
      && Phase1Words(S, tk[..16], hdr[10..16], iv32, w)
      && Phase2Words(S, tk[..16], w[40..], iv16, v) && SeedOctets(tk[..16], iv16, v, seed)
  }

  /** The code is that of Michael over the pseudo header and the message. */
  ghost predicate Coded(tk: Tk, hdr: Header, m: Octets, mic: Octets) {
    exists h: Michael.MicHeader :: PseudoHeader(hdr, h) && Michael.IsMic(MicKeyOctets(tk, hdr), h, m, mic)
  }

  /** Behind the IV: message, code and integrity check value under RC4. */
  ghost predicate Carries(S: SubBox, tk: Tk, hdr: Header, data: Octets, m: Octets) {
    |data| >= 20
    && exists seed, mic ::
         && Mixed(S, tk, hdr, data, seed) && seed != [] && Coded(tk, hdr, m, mic)
         && Rc4.IsRc4(seed, data[8..], m + mic + Wep.Icv(m + mic))
  }

  lemma IvWords(data: Octets)
    requires |data| >= 8
    ensures Iv16(data) == Pack16(data[2], data[0]) && Iv32(data) == GetLe32(data, 4)
  {
  }

  lemma KeyIsMixed(S: SubBox, tk: Tk, hdr: Header, data: Octets)
    requires |data| >= 8
    ensures Mixed(S, tk, hdr, data, KeyFor(S, tk, hdr, data))
  {
    IvWords(data);
    var iv32, iv16 := GetLe32(data, 4), Pack16(data[2], data[0]);
    hide Phase1Words, Phase2Words, SeedOctets, Phase1, Phase2, Iv16, Iv32, GetLe32, Pack16;
    Phase1Recurrence(S, tk[..16], hdr[10..16], iv32);
    var w :| Phase1Words(S, tk[..16], hdr[10..16], iv32, w) && w[40..] == Phase1(S, tk[..16], hdr[10..16], iv32);
    Phase2Recurrence(S, tk[..16], w[40..], iv16);
  }

  lemma CodeIsMic(tk: Tk, hdr: Header, m: Octets)
    ensures Coded(tk, hdr, m, MicOf(tk, hdr, m))
  {
    PseudoHeaderIs(hdr);
    MicKeyIs(tk, hdr);
    Michael.MicStates(MicKey(tk, hdr), MichaelHeader(hdr), m);
    hide PseudoHeader, Michael.IsMic, Michael.Mic, MichaelHeader, MicKey, MicKeyOctets;
  }

  /** A frame that opens to a message carries it in that way, whatever the S-box. */
  lemma OpensCarried(S: SubBox, tk: Tk, hdr: Header, data: Octets, m: Octets)
    requires Open(S, tk, hdr, data) == Some(m)
    ensures Carries(S, tk, hdr, data, m)
  {
    OpensExactlySealed(S, tk, hdr, data, m);
    var seed, mic := KeyFor(S, tk, hdr, data), MicOf(tk, hdr, m);
    KeyIsMixed(S, tk, hdr, data);
    CodeIsMic(tk, hdr, m);
    KeyOfIv(S, tk, hdr, data);
    hide Open, KeyFor, MicOf, Mixed, Coded, Rc4.Rc4, Rc4.IsRc4, Wep.Icv;
    var plain := m + mic + Wep.Icv(m + mic);
    assert data[8..] == Rc4.Rc4(seed, plain);
    Rc4.Involution(seed, plain);
    Rc4.Rc4States(seed, data[8..]);
  }

  // ---- The methods

  /** `fc & (WLAN_FC_FROMDS | WLAN_FC_TODS)` */
  function DsBits(fc: bv16): bv16 { fc & (WLAN_FC_FROMDS | WLAN_FC_TODS) }

  lemma DsBitsAre(fc: bv16)
    ensures DsBits(fc) == fc & 0x300
  {
    var tods: bv16, fromds: bv16 := WLAN_FC_TODS, WLAN_FC_FROMDS;
    assert fromds | tods == 0x300;
  }

  lemma DsCases(fc: bv16)
    ensures DsBits(fc) == 0x0100 <==> ToDs(fc) && !FromDs(fc)
    ensures DsBits(fc) == 0x0200 <==> !ToDs(fc) && FromDs(fc)
    ensures DsBits(fc) == 0x0300 <==> ToDs(fc) && FromDs(fc)
  {
    DsBitsAre(fc);
    BitsAre(fc);
    TwoBits(fc);
    hide FourAddress, ToDs, FromDs, DsBits;
  }

  /** The `switch` of `michael_mic_hdr`. */
  method FillAddresses(hdr: Header, out: array<Octet>) returns (hdrlen: nat)
    requires out.Length == 16
    modifies out
    ensures hdrlen == QosAt(GetLe16(hdr, 0))
    ensures out[..] == Put(old(out[..]), 0, Destination(hdr) + Source(hdr))
  {
    var fc := GetLe16(hdr, 0);
    DsCases(fc);
    BothBits(fc);
    hide ToDs, FromDs, FourAddress, GetLe16, HeaderReach, DsBits;
    hdrlen := 24;
    var ds := DsBits(fc);
    assert WLAN_FC_FROMDS | WLAN_FC_TODS == 0x0300;
    if ds == WLAN_FC_TODS {
      CopyPair(out, hdr[16..22], hdr[10..16]);
    } else if ds == WLAN_FC_FROMDS {
      CopyPair(out, hdr[4..10], hdr[16..22]);
    } else if ds == WLAN_FC_FROMDS | WLAN_FC_TODS {
      ReachesAddress4(hdr);
      CopyPair(out, hdr[16..22], hdr[24..30]);
      hdrlen := hdrlen + 6;
    } else {
      CopyPair(out, hdr[4..10], hdr[10..16]);
    }
  }

  method CopyPair(out: array<Octet>, da: Octets, sa: Octets)
    requires out.Length == 16 && |da| == |sa| == 6
    modifies out
    ensures out[..] == Put(old(out[..]), 0, da + sa)
  {
    Copy(out, 0, da);
    Copy(out, 6, sa);
  }

  /** `michael_mic_hdr` */
  method MichaelMicHdr(hdr: Header, out: array<Octet>)
    requires out.Length == 16
    modifies out
    ensures out[..] == MichaelHeader(hdr)
  {
    var hdrlen := FillAddresses(hdr, out);
    var fc := GetLe16(hdr, 0);
    hide Destination, Source, GetLe16, QosAt;
    if QosData(fc) {
      out[12] := hdr[hdrlen] & 0x0f;
    } else {
      out[12] := 0;
    }
    out[13], out[14], out[15] := 0, 0, 0;
    assert out[..] == Destination(hdr) + Source(hdr) + [Priority(hdr), 0, 0, 0];
  }

  method MixKey(S: SubBox, tk: Tk, hdr: Header, data: Octets) returns (key: Octets)
    requires |data| >= 8
    ensures key == KeyFor(S, tk, hdr, data)
  {
    hide Phase1, Phase2, GetLe32, Mk16;
    var iv16 := Mk16(data[0], data[2]);
    var iv32 := GetLe32(data, 4);
    var ttak := new bv16[5];
    TkipMixingPhase1(S, ttak, tk[..16], TransmitterAddress(hdr), iv32);
    var rc4key := new Octet[16];
    TkipMixingPhase2(S, rc4key, tk[..16], ttak[..], iv16);
    key := rc4key[..];
  }

  /** Key mixing and RC4. */
  method Decrypt(S: SubBox, tk: Tk, hdr: Header, data: Octets) returns (r: Octets)
    requires |data| >= 12
    ensures r == Plain(S, tk, hdr, data)
  {
    hide KeyFor, Rc4.Rc4;
    var key := MixKey(S, tk, hdr, data);
    var plain := new Octet[|data| - 8];
    Copy(plain, 0, data[8..]);
    assert plain[..] == data[8..];
    Rc4.WepCrypt(key, plain, |data| - 8);
    assert data[8..][..|data| - 8] == data[8..] && data[8..][|data| - 8..] == [];
    r := plain[..];
    assert Rc4.Rc4(key, data[8..]) + [] == Rc4.Rc4(key, data[8..]);
  }

  /** The comparison of integrity check values. */
  method CheckIcv(plain: Octets) returns (ok: bool)
    requires |plain| >= 4
    ensures ok <==> Wep.Sound(plain)
  {
    hide Crc.Divide32, GetLe32, Wep.Sound;
    var icv := Crc.Crc32(plain[..|plain| - 4]);
    Wep.SoundMeansEqual(plain);
    ok := icv == GetLe32(plain, |plain| - 4);
  }

  /** The comparison of Michael codes. */
  method CheckMic(tk: Tk, hdr: Header, msdu: Octets) returns (ok: bool)
    requires |msdu| >= 8
    ensures ok <==> Authentic(tk, hdr, msdu)
  {
    hide MichaelHeader, Michael.Mic;
    var header := new Octet[16];
    MichaelMicHdr(hdr, header);
    var fc := GetLe16(hdr, 0);
    var at := if fc & WLAN_FC_FROMDS != 0 then 16 else 24;
    var mic := Michael.MichaelMic(tk[at..at + 8], header[..], msdu[..|msdu| - 8]);
    ok := mic == msdu[|msdu| - 8..];
  }

  /** `tkip_decrypt` */
  method TkipDecrypt(S: SubBox, tk: Tk, hdr: Header, data: Octets) returns (r: Option<Octets>)
    ensures r == Open(S, tk, hdr, data)
    ensures r.Some? ==> Carries(S, tk, hdr, data, r.value)
  {
    forall m | Open(S, tk, hdr, data) == Some(m) ensures Carries(S, tk, hdr, data, m) {
      OpensCarried(S, tk, hdr, data, m);
    }
    hide Wep.Sound, Authentic, Plain, Carries;
    if |data| < 8 + 4 {
      return None;
    }
    var plain := Decrypt(S, tk, hdr, data);
    var icvOk := CheckIcv(plain);
    if !icvOk {
      return None;
    }
    var msdu := plain[..|plain| - 4];
    if |msdu| < 8 {
      return None;
    }
    var micOk := CheckMic(tk, hdr, msdu);
    if !micOk {
      return None;
    }
    return Some(msdu[..|msdu| - 8]);
  }
}
