/**
  EAPOL-Key frames (rx_eapol.c): which message a frame is, and what each message of the
  4-Way Handshake does to a station record.  Key derivation and MIC are parameters.
 */
module Handshake {
  import opened Options
  import opened Octets
  import opened Records
  import Ccm
  import Bip

  /** What `wpa_pmk_to_ptk` is given. */
  datatype PtkInput = PtkInput(pmk: Pmk, bssid: Addr, addr: Addr, anonce: Octets, snonce: Octets, long: bool,
                               sha256: bool)

  /** The primitives the tracker calls. */
  datatype Crypto = Crypto(
    aes: Octets -> Ccm.Cipher,                        // AES-128 under a key
    omac: Bip.Omac,                                   // AES-128-CMAC
    prf: PtkInput -> Ptk,                             // the pairwise key expansion
    mic: (Octets, bv16, Octets) -> Bip.Tag16,         // EAPOL-Key MIC: KCK, version, frame
    hash: Octets -> Octets,                           // SHA-256
    kdf: (Octets, Octets) -> (Octets, Octets))        // TPK key confirmation and temporal key

  const WPA_KEY_INFO_TYPE_MASK: bv16 := 0x0007
  const WPA_KEY_INFO_KEY_TYPE: bv16 := 0x0008
  const WPA_KEY_INFO_INSTALL: bv16 := 0x0040
  const WPA_KEY_INFO_ACK: bv16 := 0x0080
  const WPA_KEY_INFO_MIC: bv16 := 0x0100
  const WPA_KEY_INFO_SECURE: bv16 := 0x0200
  const WPA_KEY_INFO_ERROR: bv16 := 0x0400
  const WPA_KEY_INFO_REQUEST: bv16 := 0x0800
  const WPA_KEY_INFO_SMK_MESSAGE: bv16 := 0x2000

  const EAPOL_KEY_TYPE_RSN: Octet := 2
  const EAPOL_KEY_TYPE_WPA: Octet := 254

  /** An EAPOL frame that holds `struct ieee802_1x_hdr` and `struct wpa_eapol_key`. */
  type KeyFrame = d: Octets | |d| >= 4 + 95 witness Zeros(99)

  function Info(d: KeyFrame): bv16 { Pack16(d[6], d[5]) }

  function Version(d: KeyFrame): bv16 { Info(d) & WPA_KEY_INFO_TYPE_MASK }

  function KeyNonce(d: KeyFrame): (n: Octets)
    ensures |n| == 32
  {
    d[17..49]
  }

  function KeyMic(d: KeyFrame): Octets { d[81..97] }

  function KeyDataLength(d: KeyFrame): nat { 256 * Num(d[97]) + Num(d[98]) }

  /** The frame with its MIC field zeroed. */
  function WithoutMic(d: KeyFrame): Octets { d[..81] + Zeros(16) + d[97..] }

  /** `check_mic` */
  predicate MicOk(c: Crypto, kck: Octets, d: KeyFrame) {
    c.mic(kck, Version(d), WithoutMic(d)) == KeyMic(d)
  }

  datatype Message = Msg1 | Msg2 | Msg3 | Msg4 | Group1 | Group2

  /** The dispatch of `rx_data_eapol_key`. */
  function Classify(d: Octets): Option<Message> {
    if |d| < 4 + 95 then None
    else if d[4] != EAPOL_KEY_TYPE_RSN && d[4] != EAPOL_KEY_TYPE_WPA then None
    else if 99 + KeyDataLength(d) > |d| then None
    else if Version(d) != 1 && Version(d) != 2 && Version(d) != 3 then None
    else if Info(d) & (WPA_KEY_INFO_ERROR | WPA_KEY_INFO_REQUEST) != 0 then None
    else if Info(d) & WPA_KEY_INFO_SMK_MESSAGE != 0 then None
    else if Info(d) & WPA_KEY_INFO_KEY_TYPE != 0 then
      var bits := WPA_KEY_INFO_SECURE | WPA_KEY_INFO_MIC | WPA_KEY_INFO_ACK | WPA_KEY_INFO_INSTALL;
      Pairwise(Info(d) & bits, KeyDataLength(d))
    else GroupKey(Info(d) & (WPA_KEY_INFO_SECURE | WPA_KEY_INFO_MIC | WPA_KEY_INFO_ACK))
  }

  function Pairwise(bits: bv16, dataLength: nat): Option<Message> {
    if bits == WPA_KEY_INFO_ACK then Some(Msg1)
    else if bits == WPA_KEY_INFO_MIC || bits == WPA_KEY_INFO_SECURE | WPA_KEY_INFO_MIC then
      Some(if dataLength == 0 then Msg4 else Msg2)
    else if bits == WPA_KEY_INFO_MIC | WPA_KEY_INFO_ACK | WPA_KEY_INFO_INSTALL
         || bits == WPA_KEY_INFO_SECURE | WPA_KEY_INFO_MIC | WPA_KEY_INFO_ACK | WPA_KEY_INFO_INSTALL then Some(Msg3)
    else None
  }

  function GroupKey(bits: bv16): Option<Message> {
    if bits == WPA_KEY_INFO_SECURE | WPA_KEY_INFO_MIC | WPA_KEY_INFO_ACK then Some(Group1)
    else if bits == WPA_KEY_INFO_SECURE | WPA_KEY_INFO_MIC then Some(Group2)
    else None
  }

  /** Messages 1, 3 and group 1 come from the access point. */
  predicate FromAp(m: Message) { m == Msg1 || m == Msg3 || m == Group1 }

  // ---- Which octets are which message

  /** The tests before the dispatch: type, length, version, and no error, request or SMK message. */
  predicate IsKeyFrame(d: Octets) {
    && |d| >= 99 && (d[4] == 2 || d[4] == 254)
    && 99 + 256 * Num(d[97]) + Num(d[98]) <= |d|
    && (d[6] & 0x07 == 1 || d[6] & 0x07 == 2 || d[6] & 0x07 == 3)
    && d[5] & 0x2c == 0
  }

  /** Key type in bit 3 of octet 6, install and ACK in its bits 6 and 7, MIC and secure in bits 0 and 1 of octet 5. */
  predicate MessageIs(d: Octets, m: Message) {
    IsKeyFrame(d)
    && match m
       case Msg1 => d[6] & 0xc8 == 0x88 && d[5] & 0x03 == 0x00
       case Msg2 => d[6] & 0xc8 == 0x08 && d[5] & 0x01 == 0x01 && !(d[97] == 0 && d[98] == 0)
       case Msg3 => d[6] & 0xc8 == 0xc8 && d[5] & 0x01 == 0x01
       case Msg4 => d[6] & 0xc8 == 0x08 && d[5] & 0x01 == 0x01 && d[97] == 0 && d[98] == 0
       case Group1 => d[6] & 0x88 == 0x80 && d[5] & 0x03 == 0x03
       case Group2 => d[6] & 0x88 == 0x00 && d[5] & 0x03 == 0x03
  }

  lemma InfoBits(hi: Octet, lo: Octet)
    ensures var i := Pack16(lo, hi);
            && i & WPA_KEY_INFO_TYPE_MASK == (lo & 0x07) as bv16
            && (i & (WPA_KEY_INFO_ERROR | WPA_KEY_INFO_REQUEST) == 0 && i & WPA_KEY_INFO_SMK_MESSAGE == 0
                <==> hi & 0x2c == 0)
            && (i & WPA_KEY_INFO_KEY_TYPE == 0 <==> lo & 0x08 == 0)
  {
  }

  lemma PairwiseBits(hi: Octet, lo: Octet)
    ensures var bits := Pack16(lo, hi)
                        & (WPA_KEY_INFO_SECURE | WPA_KEY_INFO_MIC | WPA_KEY_INFO_ACK | WPA_KEY_INFO_INSTALL);
            && (bits == WPA_KEY_INFO_ACK <==> lo & 0xc0 == 0x80 && hi & 0x03 == 0x00)
            && (bits == WPA_KEY_INFO_MIC || bits == WPA_KEY_INFO_SECURE | WPA_KEY_INFO_MIC
                <==> lo & 0xc0 == 0x00 && hi & 0x01 == 0x01)
            && (bits == WPA_KEY_INFO_MIC | WPA_KEY_INFO_ACK | WPA_KEY_INFO_INSTALL
                || bits == WPA_KEY_INFO_SECURE | WPA_KEY_INFO_MIC | WPA_KEY_INFO_ACK | WPA_KEY_INFO_INSTALL
                <==> lo & 0xc0 == 0xc0 && hi & 0x01 == 0x01)
  {
  }

  lemma GroupBits(hi: Octet, lo: Octet)
    ensures var bits := Pack16(lo, hi) & (WPA_KEY_INFO_SECURE | WPA_KEY_INFO_MIC | WPA_KEY_INFO_ACK);
            && (bits == WPA_KEY_INFO_SECURE | WPA_KEY_INFO_MIC | WPA_KEY_INFO_ACK
                <==> lo & 0x80 == 0x80 && hi & 0x03 == 0x03)
            && (bits == WPA_KEY_INFO_SECURE | WPA_KEY_INFO_MIC <==> lo & 0x80 == 0x00 && hi & 0x03 == 0x03)
  {
  }

  lemma TwoMasks(lo: Octet)
    ensures lo & 0xc8 == 0x88 <==> lo & 0x08 != 0 && lo & 0xc0 == 0x80
    ensures lo & 0xc8 == 0x08 <==> lo & 0x08 != 0 && lo & 0xc0 == 0x00
    ensures lo & 0xc8 == 0xc8 <==> lo & 0x08 != 0 && lo & 0xc0 == 0xc0
    ensures lo & 0x88 == 0x80 <==> lo & 0x08 == 0 && lo & 0x80 == 0x80
    ensures lo & 0x88 == 0x00 <==> lo & 0x08 == 0 && lo & 0x80 == 0x00
  {
  }

  lemma LengthOctets(d: KeyFrame)
    ensures KeyDataLength(d) == 0 <==> d[97] == 0 && d[98] == 0
  {
    ByteNum(d[97]);
    ByteNum(d[98]);
    NumByte(0);
    hide Byte, Num;
  }

  /** Exactly those octets are message `m`. */
  lemma ClassifyOctets(d: Octets, m: Message)
    ensures Classify(d) == Some(m) <==> MessageIs(d, m)
  {
    if |d| >= 99 {
      InfoBits(d[5], d[6]);
      PairwiseBits(d[5], d[6]);
      GroupBits(d[5], d[6]);
      TwoMasks(d[6]);
      LengthOctets(d);
      hide Pack16;
    }
  }

  // ---- Keys of a station

  /** The PTK that a PMK gives with the nonces seen last. */
  function Derived(c: Crypto, bssid: Addr, s: StaV, pmk: Pmk): Ptk {
    c.prf(PtkInput(pmk, bssid, s.addr, s.anonce, s.snonce, s.sec.tkip, s.sec.sha256))
  }

  /** A PTK taken over: into `tptk` while one is in use, otherwise into `ptk` with fresh packet numbers. */
  function Install(s: StaV, ptk: Ptk): StaV {
    if s.ptkSet then s.(tptk := ptk, tptkSet := true)
    else s.(ptk := ptk, ptkSet := true, rscToDs := ZeroRsc(), rscFromDs := ZeroRsc())
  }

  /** Whether a PMK explains a frame. */
  predicate Explains(c: Crypto, bssid: Addr, s: StaV, d: KeyFrame, pmk: Pmk) {
    MicOk(c, Derived(c, bssid, s, pmk).kck, d)
  }

  /** `derive_ptk`: the first PMK that explains the frame. */
  function DerivePtk(c: Crypto, bssid: Addr, s: StaV, d: KeyFrame, pmks: seq<Pmk>): (t: StaV)
    ensures t.addr == s.addr
    decreases |pmks|
  {
    if pmks == [] then s
    else if Explains(c, bssid, s, d, pmks[0]) then Install(s, Derived(c, bssid, s, pmks[0]))
    else DerivePtk(c, bssid, s, d, pmks[1..])
  }

  predicate HasKey(s: StaV) { s.ptkSet || s.tptkSet }

  /** The PTK that EAPOL-Key frames are checked with. */
  function Current(s: StaV): Ptk { if s.tptkSet then s.tptk else s.ptk }

  predicate Verifies(c: Crypto, s: StaV, d: KeyFrame) { HasKey(s) && MicOk(c, Current(s).kck, d) }

  function Rx1Of4(s: StaV, d: KeyFrame): StaV { s.(anonce := KeyNonce(d)) }

  /** Message 2; `learned` is what its information element says where it differs from the one known. */
  function Rx2Of4(c: Crypto, bssid: Addr, s: StaV, d: KeyFrame, pmks: seq<Pmk>, learned: Option<Sec>): StaV {
    var t := DerivePtk(c, bssid, s.(snonce := KeyNonce(d)), d, pmks);
    if Verifies(c, t, d) && learned.Some? then t.(sec := learned.value) else t
  }

  function Rx3Of4(c: Crypto, bssid: Addr, s: StaV, d: KeyFrame, pmks: seq<Pmk>): StaV {
    var t := s.(anonce := KeyNonce(d));
    if s.anonce != KeyNonce(d) then DerivePtk(c, bssid, t, d, pmks) else t
  }

  function Rx4Of4(c: Crypto, s: StaV, d: KeyFrame): StaV {
    if Verifies(c, s, d) && s.tptkSet
    then s.(ptk := s.tptk, ptkSet := true, tptkSet := false, rscToDs := ZeroRsc(), rscFromDs := ZeroRsc())
    else s
  }

  /** What a message does to the record of its station. */
  function StaStep(c: Crypto, bssid: Addr, s: StaV, m: Message, d: KeyFrame, pmks: seq<Pmk>,
                   learned: Option<Sec>): (t: StaV)
    ensures t.addr == s.addr
  {
    match m
    case Msg1 => Rx1Of4(s, d)
    case Msg2 => Rx2Of4(c, bssid, s, d, pmks, learned)
    case Msg3 => Rx3Of4(c, bssid, s, d, pmks)
    case Msg4 => Rx4Of4(c, s, d)
    case Group1 => s
    case Group2 => s
  }

  // ---- What a message may do

  /** Where the first PMK that explains a frame stands in the list, or its length. */
  function FirstFit(c: Crypto, bssid: Addr, s: StaV, d: KeyFrame, pmks: seq<Pmk>): (k: nat)
    ensures k <= |pmks| && (k < |pmks| ==> Explains(c, bssid, s, d, pmks[k]))
    ensures forall j | 0 <= j < k :: !Explains(c, bssid, s, d, pmks[j])
  {
    if pmks == [] || Explains(c, bssid, s, d, pmks[0]) then 0 else 1 + FirstFit(c, bssid, s, d, pmks[1..])
  }

  /**
    `derive_ptk` installs a PTK exactly if some PMK in the list explains the frame, and then that
    of the first one: into `ptk` if there was none, into `tptk` otherwise.
   */
  lemma {:induction false} FirstExplains(c: Crypto, bssid: Addr, s: StaV, d: KeyFrame, pmks: seq<Pmk>)
    ensures var k := FirstFit(c, bssid, s, d, pmks);
            && (k < |pmks| <==> exists p | p in pmks :: Explains(c, bssid, s, d, p))
            && DerivePtk(c, bssid, s, d, pmks)
               == if k < |pmks| then Install(s, Derived(c, bssid, s, pmks[k])) else s
    decreases |pmks|
  {
    hide Install, Explains, Derived;
    if pmks != [] && !Explains(c, bssid, s, d, pmks[0]) {
      FirstExplains(c, bssid, s, d, pmks[1..]);
    }
  }

  /** A key that comes from one of the PMKs with the nonces of `s`, and explains the frame. */
  ghost predicate FromPmk(c: Crypto, bssid: Addr, s: StaV, d: KeyFrame, pmks: seq<Pmk>, ptk: Ptk) {
    exists k | 0 <= k < |pmks| :: Explains(c, bssid, s, d, pmks[k]) && ptk == Derived(c, bssid, s, pmks[k])
  }

  lemma {:induction false} DeriveCases(c: Crypto, bssid: Addr, s: StaV, d: KeyFrame, pmks: seq<Pmk>)
    ensures var t := DerivePtk(c, bssid, s, d, pmks);
            t == s || exists ptk :: FromPmk(c, bssid, s, d, pmks, ptk) && t == Install(s, ptk)
    decreases |pmks|
  {
    hide Install, Explains, Derived;
    if pmks != [] {
      if Explains(c, bssid, s, d, pmks[0]) {
        assert FromPmk(c, bssid, s, d, pmks, Derived(c, bssid, s, pmks[0]));
      } else {
        DeriveCases(c, bssid, s, d, pmks[1..]);
        forall ptk | FromPmk(c, bssid, s, d, pmks[1..], ptk) ensures FromPmk(c, bssid, s, d, pmks, ptk) {
          var rest := pmks[1..];
          var k :| 0 <= k < |rest| && Explains(c, bssid, s, d, rest[k]) && ptk == Derived(c, bssid, s, rest[k]);
          assert pmks[k + 1] == rest[k];
        }
      }
    }
  }

  predicate FreshRsc(t: StaV) { t.rscToDs == ZeroRsc() && t.rscFromDs == ZeroRsc() }

  /** The PTK in use changed: `ptk` or `ptk_set` is not what it was. */
  predicate PtkChanged(s: StaV, t: StaV) { t.ptk != s.ptk || t.ptkSet != s.ptkSet }

  predicate TptkChanged(s: StaV, t: StaV) { t.tptk != s.tptk || t.tptkSet != s.tptkSet }

  /** A first PTK, from a known PMK and the nonces seen last, that verifies the frame. */
  ghost predicate FirstInstall(c: Crypto, bssid: Addr, s: StaV, t: StaV, m: Message, d: KeyFrame, pmks: seq<Pmk>) {
    (m == Msg2 || m == Msg3) && !s.ptkSet && t.ptkSet && MicOk(c, t.ptk.kck, d) && FreshRsc(t)
    && FromPmk(c, bssid, t.(sec := s.sec), d, pmks, t.ptk)
  }

  /** The key of a rekeying put to use by message 4, which it verifies. */
  ghost predicate Rekeyed(c: Crypto, s: StaV, t: StaV, m: Message, d: KeyFrame) {
    m == Msg4 && s.tptkSet && t.ptk == s.tptk && t.ptkSet && !t.tptkSet && MicOk(c, t.ptk.kck, d) && FreshRsc(t)
  }

  /** A key for a rekeying, from a known PMK and the nonces seen last, that verifies the frame. */
  ghost predicate RekeyPending(c: Crypto, bssid: Addr, s: StaV, t: StaV, m: Message, d: KeyFrame, pmks: seq<Pmk>) {
    (m == Msg2 || m == Msg3) && s.ptkSet && t.tptkSet && MicOk(c, t.tptk.kck, d)
    && FromPmk(c, bssid, t.(sec := s.sec), d, pmks, t.tptk)
  }

  /**
    The only ways a message changes the PTK in use: a first installation by message 2 or 3, or
    message 4 putting to use the key that verifies it.  Packet numbers start afresh with it.
   */
  lemma PtkChanges(c: Crypto, bssid: Addr, s: StaV, m: Message, d: KeyFrame, pmks: seq<Pmk>, learned: Option<Sec>)
    ensures var t := StaStep(c, bssid, s, m, d, pmks, learned);
            PtkChanged(s, t) ==> FirstInstall(c, bssid, s, t, m, d, pmks) || Rekeyed(c, s, t, m, d)
    ensures var t := StaStep(c, bssid, s, m, d, pmks, learned);
            TptkChanged(s, t) ==> RekeyPending(c, bssid, s, t, m, d, pmks) || Rekeyed(c, s, t, m, d)
  {
    var t := StaStep(c, bssid, s, m, d, pmks, learned);
    if m == Msg2 {
      var u := s.(snonce := KeyNonce(d));
      DeriveChanges(c, bssid, u, d, pmks);
    } else if m == Msg3 {
      var u := s.(anonce := KeyNonce(d));
      DeriveChanges(c, bssid, u, d, pmks);
    }
    hide MicOk, DerivePtk, KeyNonce, FromPmk;
  }

  lemma DeriveChanges(c: Crypto, bssid: Addr, u: StaV, d: KeyFrame, pmks: seq<Pmk>)
    ensures var t := DerivePtk(c, bssid, u, d, pmks);
            t == u
            || (!u.ptkSet && t == u.(ptk := t.ptk, ptkSet := true, rscToDs := ZeroRsc(), rscFromDs := ZeroRsc())
                && MicOk(c, t.ptk.kck, d) && FromPmk(c, bssid, t, d, pmks, t.ptk))
            || (u.ptkSet && t == u.(tptk := t.tptk, tptkSet := true)
                && MicOk(c, t.tptk.kck, d) && FromPmk(c, bssid, t, d, pmks, t.tptk))
  {
    DeriveCases(c, bssid, u, d, pmks);
    hide MicOk, DerivePtk;
    var t := DerivePtk(c, bssid, u, d, pmks);
    if t != u {
      var ptk :| FromPmk(c, bssid, u, d, pmks, ptk) && t == Install(u, ptk);
      assert FromPmk(c, bssid, t, d, pmks, ptk) by {
        var k :| 0 <= k < |pmks| && Explains(c, bssid, u, d, pmks[k]) && ptk == Derived(c, bssid, u, pmks[k]);
        assert Derived(c, bssid, t, pmks[k]) == Derived(c, bssid, u, pmks[k]);
      }
    }
  }

  /** A PTK in use is never dropped, and a key for a rekeying is there only beside a PTK in use. */
  lemma KeysKept(c: Crypto, bssid: Addr, s: StaV, m: Message, d: KeyFrame, pmks: seq<Pmk>, learned: Option<Sec>)
    ensures var t := StaStep(c, bssid, s, m, d, pmks, learned);
            (s.ptkSet ==> t.ptkSet) && ((s.tptkSet ==> s.ptkSet) ==> (t.tptkSet ==> t.ptkSet))
            && t.state == s.state
  {
    DeriveChanges(c, bssid, s.(snonce := KeyNonce(d)), d, pmks);
    DeriveChanges(c, bssid, s.(anonce := KeyNonce(d)), d, pmks);
    hide MicOk, DerivePtk, KeyNonce, FromPmk;
  }

  /** Message 4 puts a pending key to use exactly when that key verifies it. */
  lemma RekeysExactly(c: Crypto, s: StaV, d: KeyFrame)
    requires s.tptkSet
    ensures MicOk(c, s.tptk.kck, d) <==> !Rx4Of4(c, s, d).tptkSet
    ensures MicOk(c, s.tptk.kck, d) ==> Rekeyed(c, s, Rx4Of4(c, s, d), Msg4, d)
  {
    hide MicOk;
  }
}
