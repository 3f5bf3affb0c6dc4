/**
  Injecting BIP-protected frames (inject.c) into a BSS, against the check that received frames of
  the same BSS go through (rx_mgmt.c).
 */
module Injection {
  import opened Options
  import opened Octets
  import opened Records
  import opened Handshake
  import opened MgmtFrames
  import opened Arith
  import opened Counters
  import Bip

  /** A key ID as it goes into the MMIE. */
  function AsKeyId(i: nat): (k: bv16)
    requires i < 6
    ensures k < 6
  {
    if i == 0 then 0 else if i == 1 then 1 else if i == 2 then 2 else if i == 3 then 3 else if i == 4 then 4 else 5
  }

  /** The key for the frame: the IGTK, or a dummy to produce a bad frame. */
  function InjectKey(b: BssV, incorrectKey: bool): Octets
    requires b.igtkIdx < 6
  {
    if incorrectKey then seq(64, _ => 0x11)[..16] else b.igtks[b.igtkIdx].key
  }

  /** `wlantest_inject_bip`: the BSS with its packet number counted up, and the frame. */
  function Injected(c: Crypto, b: BssV, frame: Octets, incorrectKey: bool): (r: (BssV, Option<Octets>))
    requires |frame| >= 24 && b.igtkIdx < 6
    ensures r.0.bssid == b.bssid
  {
    var k := b.igtks[b.igtkIdx];
    if !k.known then (b, None)
    else
      var ipn := Inc(k.ipn);
      (b.(igtks := b.igtks[b.igtkIdx := k.(ipn := ipn)]),
       Some(Bip.Protect(c.omac, InjectKey(b, incorrectKey), frame, AsKeyId(b.igtkIdx), ipn)))
  }

  /**
    A frame injected with the right key passes the check of its BSS for every frame and CMAC.  It
    is counted as valid exactly if the key ID in use is 4 or 5: the tracker takes over keys with
    ID 0 to 5, but frames with the others are counted as invalid, and not verified.
   */
  lemma InjectedAccepted(c: Crypto, b: BssV, frame: Octets)
    requires |frame| >= 24 && b.igtkIdx < 6 && b.igtks[b.igtkIdx].known
    ensures var (i, f) := Injected(c, b, frame, false);
            f.Some? && |f.value| >= 24
            && var (after, ok) := CheckMmie(c, i, f.value);
               ok
               && (after.bip.valid == b.bip.valid + 1 <==> b.igtkIdx == 4 || b.igtkIdx == 5)
               && (after.bip.invalid == b.bip.invalid + 1 <==> b.igtkIdx < 4)
               && after.igtks[b.igtkIdx].ipn == Inc(b.igtks[b.igtkIdx].ipn)
  {
    var k := b.igtks[b.igtkIdx];
    var ipn := Inc(k.ipn);
    Bip.ProtectedFields(c.omac, k.key, frame, AsKeyId(b.igtkIdx), ipn);
    Bip.ProtectedPasses(c.omac, k.key, frame, AsKeyId(b.igtkIdx), ipn);
    hide Bip.Protect, Bip.HasMmie, Bip.KeyId, Bip.IpnOf, Bip.MicOk, Inc;
  }

  lemma KeyIdOctets(i: nat)
    requires i < 6
    ensures (AsKeyId(i) & 0xff) as bv8 == Byte(i) && (AsKeyId(i) >> 8) as bv8 == 0
  {
    SmallOctets();
    hide Byte;
  }

  lemma SmallOctets()
    ensures Byte(0) == 0 && Byte(1) == 1 && Byte(2) == 2 && Byte(3) == 3 && Byte(4) == 4 && Byte(5) == 5
  {
  }

  /** The key of a frame: sixteen octets of 0x11 where it shall be a bad one. */
  predicate KeyIs(b: BssV, incorrectKey: bool, key: Octets)
    requires b.igtkIdx < 6
  {
    if incorrectKey then |key| == 16 && forall i | 0 <= i < 16 :: key[i] == 0x11 else key == b.igtks[b.igtkIdx].key
  }

  lemma OneKey(b: BssV, incorrectKey: bool, key: Octets)
    requires b.igtkIdx < 6 && KeyIs(b, incorrectKey, key)
    ensures InjectKey(b, incorrectKey) == key
  {
  }

  lemma NextNumber(ipn: Bip.Ipn)
    ensures Value(Inc(ipn)) == (Value(ipn) + 1) % Range(6)
  {
    IncAddsOne(ipn);
    Remainder(Value(ipn) + 1, Range(6), if Value(ipn) + 1 == Range(6) then 1 else 0, Value(Inc(ipn)));
    hide Value, Range, Inc;
  }

  /** The injected frame: an MMIE with the key ID in use and the next packet number, and its MIC. */
  lemma InjectedOctets(c: Crypto, b: BssV, frame: Octets, incorrectKey: bool, key: Octets)
    requires |frame| >= 24 && b.igtkIdx < 6 && b.igtks[b.igtkIdx].known && KeyIs(b, incorrectKey, key)
    ensures var f, n := Injected(c, b, frame, incorrectKey).1, |frame|;
            && f.Some? && |f.value| == n + 18 && f.value[..n] == frame
            && f.value[n..n + 4] == [76, 16, Byte(b.igtkIdx), 0]
            && Value(f.value[n + 4..n + 10]) == (Value(b.igtks[b.igtkIdx].ipn) + 1) % Range(6)
            && exists buf :: Bip.IsMaskedBody(f.value, buf) && f.value[n + 10..] == c.omac(key, buf)[..8]
  {
    var ipn := b.igtks[b.igtkIdx].ipn;
    OneKey(b, incorrectKey, key);
    KeyIdOctets(b.igtkIdx);
    NextNumber(ipn);
    hide Value, Range, Inc, AsKeyId, Byte, Bip.Protect, Bip.IsMaskedBody, InjectKey, KeyIs;
    Bip.ProtectOctets(c.omac, key, frame, AsKeyId(b.igtkIdx), Inc(ipn));
  }

  /**
    A frame injected with the incorrect key for key ID 4 or 5 is judged invalid and counted so,
    exactly unless the codes of its octets under both keys agree in their first eight octets.
   */
  lemma BadlyInjected(c: Crypto, b: BssV, frame: Octets, key: Octets)
    requires |frame| >= 24 && (b.igtkIdx == 4 || b.igtkIdx == 5) && b.igtks[b.igtkIdx].known && KeyIs(b, true, key)
    ensures var (i, f) := Injected(c, b, frame, true);
            f.Some? && |f.value| >= 42
            && var (after, ok) := CheckMmie(c, i, f.value);
               && (ok <==> exists buf :: Bip.IsMaskedBody(f.value, buf)
                                         && c.omac(b.igtks[b.igtkIdx].key, buf)[..8] == c.omac(key, buf)[..8])
               && after.bip.invalid == b.bip.invalid + (if ok then 0 else 1)
  {
    var k := b.igtks[b.igtkIdx];
    var ipn := Inc(k.ipn);
    OneKey(b, true, key);
    var prot := Bip.Protect(c.omac, key, frame, AsKeyId(b.igtkIdx), ipn);
    Bip.ProtectedFields(c.omac, key, frame, AsKeyId(b.igtkIdx), ipn);
    Bip.ProtectOctets(c.omac, key, frame, AsKeyId(b.igtkIdx), ipn);
    OneCode(c, k.key, key, prot);
    hide Bip.Protect, Bip.HasMmie, Bip.KeyId, Bip.IpnOf, Bip.MicOk, Inc, InjectKey, KeyIs, Bip.IsMaskedBody;
  }

  /** Under another key than the frame was built with. */
  lemma OneCode(c: Crypto, igtk: Octets, key: Octets, prot: Bip.Frame)
    requires exists buf :: Bip.IsMaskedBody(prot, buf) && prot[|prot| - 8..] == c.omac(key, buf)[..8]
    ensures Bip.MicOk(c.omac, igtk, prot)
            <==> exists buf :: Bip.IsMaskedBody(prot, buf) && c.omac(igtk, buf)[..8] == c.omac(key, buf)[..8]
  {
    Bip.MicOctets(c.omac, igtk, prot);
    forall buf | Bip.IsMaskedBody(prot, buf) ensures buf == Bip.MaskedBody(prot) {
      Bip.MaskedBodyOnly(prot, buf);
    }
    hide Bip.MicOk, Bip.IsMaskedBody, Bip.MaskedBody;
  }

  /** The packet numbers of injected frames come later and later, until they roll over. */
  lemma InjectedLater(c: Crypto, b: BssV, frame: Octets)
    requires |frame| >= 24 && b.igtkIdx < 6 && b.igtks[b.igtkIdx].known
    ensures var ipn := b.igtks[b.igtkIdx].ipn;
            Before(ipn, Injected(c, b, frame, false).0.igtks[b.igtkIdx].ipn) <==> Value(ipn) + 1 < Range(6)
  {
    hide Before, Inc, Bip.Protect, Value, Range;
    IncIsLater(b.igtks[b.igtkIdx].ipn);
  }
}
