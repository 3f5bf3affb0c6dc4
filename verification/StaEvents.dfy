/**
  What every event does to the record of one station, read off the octets of the frame: the
  reference that the step of runs is compared with (rx_mgmt.c, rx_eapol.c).
 */
module StaEvents {
  import opened Options
  import opened Octets
  import opened Records
  import opened Handshake
  import opened MgmtFrames
  import opened TdlsTable
  import opened TrackerRuns
  import Bip
  import Ccm
  import Ccmp

  // ---- Management frames in octets

  /** The station whose protection is checked, and the one acted on. */
  function CheckedSta(f: MgmtData): Addr { if f[4..10] == f[16..22] then f[10..16] else f[4..10] }

  function ActedSta(f: MgmtData): Addr { if f[10..16] == f[16..22] then f[4..10] else f[10..16] }

  /** Disassociation, deauthentication and action frames. */
  predicate RobustKind(f: MgmtData) { f[0] & 0xf0 == 0xa0 || f[0] & 0xf0 == 0xc0 || f[0] & 0xf0 == 0xd0 }

  predicate PublicAction(f: MgmtData) { f[0] & 0xf0 == 0xd0 && |f| > 24 && f[24] == 4 }

  predicate ForGroup(f: MgmtData) { f[4] & 0x01 != 0 }

  predicate Encrypted(f: MgmtData) { f[1] & 0x40 != 0 }

  /** A robust frame for one receiver that is encrypted. */
  predicate EncryptedForOne(f: MgmtData) { RobustKind(f) && !ForGroup(f) && Encrypted(f) }

  /** The frame is long enough, has an extended IV, and opens under the station's PTK. */
  predicate OpensFor(c: Crypto, s: StaV, f: MgmtData) {
    s.ptkSet && |f| >= 40 && f[27] & 0x20 != 0 && Ccmp.Unprotect(c.aes(s.ptk.tk1), f, f[24..]).Some?
  }

  /** The packet number noted for the direction of a frame that opens. */
  function Noted(c: Crypto, f: MgmtData, s: StaV): (t: StaV)
    ensures t.addr == s.addr && t.state == s.state && t.sec == s.sec
  {
    if !EncryptedForOne(f) || s.addr != CheckedSta(f) || !OpensFor(c, s, f) then s
    else
      var pn := [f[31], f[30], f[29], f[28], f[25], f[24]];
      if f[4..10] == f[16..22] then s.(rscToDs := s.rscToDs[16 := pn]) else s.(rscFromDs := s.rscFromDs[16 := pn])
  }

  /** The record of a BSS, or the one it would start with. */
  function BssRecordOf(w: World, id: Addr): BssV { if HasBss(w, id) then TheBss(w, id) else NewBss(id) }

  /** An MMIE at the end of the frame. */
  predicate HasElement(f: MgmtData) { |f| >= 42 && f[|f| - 18] == 76 && f[|f| - 17] == 16 }

  /** Its key ID is `i`; the four highest bits are ignored. */
  predicate KeyIdIs(f: MgmtData, i: Octet)
    requires |f| >= 42
  {
    f[|f| - 16] == i && f[|f| - 15] & 0x0f == 0
  }

  /** The MIC is right under the IGTK with that key ID, if that is known. */
  predicate IgtkAccepts(c: Crypto, k: Igtk, f: MgmtData)
    requires |f| >= 42
  {
    k.known ==> Bip.MicOk(c.omac, k.key, f)
  }

  /** What a frame for a group needs to be judged valid. */
  predicate GroupOk(c: Crypto, b: BssV, f: MgmtData) {
    if !HasElement(f) then !b.mfpc
    else (KeyIdIs(f, 4) ==> IgtkAccepts(c, b.igtks[4], f)) && (KeyIdIs(f, 5) ==> IgtkAccepts(c, b.igtks[5], f))
  }

  /** A leaving frame of full length is judged valid. */
  predicate Judged(c: Crypto, w: World, id: Addr, f: MgmtData) {
    var s := RecordOf(w, id, CheckedSta(f));
    if ForGroup(f) then |f| >= 26 && GroupOk(c, BssRecordOf(w, id), f)
    else if Encrypted(f) then |f| >= 42 && CheckedSta(f)[0] & 0x01 == 0 && OpensFor(c, s, f)
    else |f| >= 26 && !(CheckedSta(f)[0] & 0x01 == 0 && s.sec.mfpc && s.state == State3)
  }

  // ---- What changes a state

  /** A successful second authentication frame. */
  predicate Authenticates(f: MgmtData, addr: Addr) {
    f[0] & 0xf0 == 0xb0 && addr == ActedSta(f) && |f| >= 30 && f[24..30] == [0, 0, 2, 0, 0, 0]
  }

  /** A response to an association or reassociation with status 0. */
  predicate Accepts(f: MgmtData, addr: Addr) {
    (f[0] & 0xf0 == 0x10 || f[0] & 0xf0 == 0x30) && addr == f[4..10] && |f| >= 30 && f[26] == 0 && f[27] == 0
  }

  /** A deauthentication or disassociation for the station: it names it, or is a broadcast. */
  predicate LeavesFor(f: MgmtData, addr: Addr) {
    (f[0] & 0xf0 == 0xa0 || f[0] & 0xf0 == 0xc0)
    && if ActedSta(f)[0] & 0x01 != 0 then f[4] == 0xff else addr == ActedSta(f)
  }

  /** A request for association (28 octets or more) or reassociation (34) of the station. */
  predicate Requests(f: MgmtData, addr: Addr) {
    addr == f[10..16] && ((f[0] & 0xf0 == 0x00 && |f| >= 28) || (f[0] & 0xf0 == 0x20 && |f| >= 34))
  }

  function Released(s: StaV, f: MgmtData): StaV {
    if f[0] & 0xf0 == 0xc0 then s.(state := State1)
    else if s.state == State3 then s.(state := State2)
    else s
  }

  /** The record of a station of the BSS that the frame names. */
  function MgmtAfter(c: Crypto, w: World, f: MgmtData, info: Info, id: Addr, s: StaV): (t: StaV)
    ensures t.addr == s.addr
  {
    var t := Noted(c, f, s);
    if Authenticates(f, s.addr) && s.state == State1 then t.(state := State2)
    else if Accepts(f, s.addr) then t.(state := State3)
    else if Requests(f, s.addr) && info.sta.Some? then t.(sec := info.sta.value)
    else if LeavesFor(f, s.addr) && Judged(c, w, id, f) then Released(t, f)
    else t
  }

  /** The frame has a record for the station looked up, and added where there is none. */
  predicate MgmtLists(f: MgmtData, addr: Addr) {
    var k := f[0] & 0xf0;
    || ((k == 0xa0 || k == 0xb0 || k == 0xc0 || (k == 0xd0 && !ForGroup(f))) && addr == ActedSta(f))
    || ((k == 0x00 || k == 0x20) && addr == f[10..16])
    || ((k == 0x10 || k == 0x30) && addr == f[4..10])
    || (RobustKind(f) && !ForGroup(f) && (Encrypted(f) || !PublicAction(f)) && addr == CheckedSta(f))
  }

  // ---- EAPOL-Key frames in octets

  /** `check_mic`: the key code over the frame with its code zeroed. */
  predicate CodeIs(c: Crypto, kck: Octets, d: KeyFrame) {
    c.mic(kck, (d[6] & 0x07) as bv16, d[..81] + Zeros(16) + d[97..]) == d[81..97]
  }

  function PtkFor(c: Crypto, id: Addr, s: StaV, pmk: Pmk): Ptk {
    c.prf(PtkInput(pmk, id, s.addr, s.anonce, s.snonce, s.sec.tkip, s.sec.sha256))
  }

  /** The PTK from the first PMK whose key confirms the frame: pending beside one in use, otherwise in use. */
  function Keyed(c: Crypto, id: Addr, s: StaV, d: KeyFrame, pmks: seq<Pmk>): (t: StaV)
    ensures t.addr == s.addr && t.state == s.state
    decreases |pmks|
  {
    if pmks == [] then s
    else
      var ptk := PtkFor(c, id, s, pmks[0]);
      if !CodeIs(c, ptk.kck, d) then Keyed(c, id, s, d, pmks[1..])
      else if s.ptkSet then s.(tptk := ptk, tptkSet := true)
      else s.(ptk := ptk, ptkSet := true, rscToDs := ZeroRsc(), rscFromDs := ZeroRsc())
  }

  /** The key that is held and confirms the frame: the pending one if there is one. */
  predicate HeldConfirms(c: Crypto, s: StaV, d: KeyFrame) {
    if s.tptkSet then CodeIs(c, s.tptk.kck, d) else s.ptkSet && CodeIs(c, s.ptk.kck, d)
  }

  /** The record of the station of a message, given the PMKs to try. */
  function KeyFrameAfter(c: Crypto, id: Addr, s: StaV, d: KeyFrame, pmks: seq<Pmk>, learned: Option<Sec>): (t: StaV)
    ensures t.addr == s.addr && t.state == s.state
  {
    var nonce := d[17..49];
    if MessageIs(d, Msg1) then s.(anonce := nonce)
    else if MessageIs(d, Msg2) then
      var t := Keyed(c, id, s.(snonce := nonce), d, pmks);
      if learned.Some? && HeldConfirms(c, t, d) then t.(sec := learned.value) else t
    else if MessageIs(d, Msg3) && s.anonce != nonce then Keyed(c, id, s.(anonce := nonce), d, pmks)
    else if MessageIs(d, Msg4) && s.tptkSet && CodeIs(c, s.tptk.kck, d) then
      s.(ptk := s.tptk, ptkSet := true, tptkSet := false, rscToDs := ZeroRsc(), rscFromDs := ZeroRsc())
    else s
  }

  /** Messages 1, 3 and group 1 come from the access point, the others go to it. */
  predicate BetweenThem(e: Event, id: Addr, addr: Addr) {
    e.Eapol? && |e.key| >= 99
    && var d: KeyFrame := e.key;
       || ((MessageIs(d, Msg1) || MessageIs(d, Msg3) || MessageIs(d, Group1)) && id == e.src && addr == e.dst)
       || ((MessageIs(d, Msg2) || MessageIs(d, Msg4) || MessageIs(d, Group2)) && id == e.dst && addr == e.src)
  }

  // ---- Every event

  /** The record of a station of BSS `id` after an event, from the one before it. */
  function RecordAfter(c: Crypto, w: World, e: Event, id: Addr, s: StaV): (t: StaV)
    ensures t.addr == s.addr
  {
    match e
    case Mgmt(f, info) => if |f| < 24 || f[16..22] != id then s else MgmtAfter(c, w, f, info, id, s)
    case Eapol(_, _, d, learned, _) =>
      if !BetweenThem(e, id, s.addr) then s
      else KeyFrameAfter(c, id, s, d, (if HasBss(w, id) then TheBss(w, id).pmks else []) + w.pmks, learned)
    case DataDecrypted(apId, staAddr, toDs, tid, pn) =>
      if apId != id || staAddr != s.addr || tid > 16 then s
      else if toDs then s.(rscToDs := s.rscToDs[tid := pn])
      else s.(rscFromDs := s.rscFromDs[tid := pn])
    case _ => s
  }

  /** The event has a record for the station looked up, and added where there is none. */
  predicate Lists(e: Event, id: Addr, addr: Addr) {
    || (e.Mgmt? && |e.frame| >= 24 && e.frame[16..22] == id && MgmtLists(e.frame, addr))
    || BetweenThem(e, id, addr)
    || (e.DataDecrypted? && e.apId == id && e.staAddr == addr)
  }

  // ---- The octets are what the model looks at.

  lemma KindBits(lo: Octet, hi: Octet)
    ensures var k := Ccmp.FcSubtype(Pack16(lo, hi));
            && (k == 0 <==> lo & 0xf0 == 0x00) && (k == 1 <==> lo & 0xf0 == 0x10) && (k == 2 <==> lo & 0xf0 == 0x20)
            && (k == 3 <==> lo & 0xf0 == 0x30) && (k == 5 <==> lo & 0xf0 == 0x50) && (k == 8 <==> lo & 0xf0 == 0x80)
            && (k == 10 <==> lo & 0xf0 == 0xa0) && (k == 11 <==> lo & 0xf0 == 0xb0)
            && (k == 12 <==> lo & 0xf0 == 0xc0) && (k == 13 <==> lo & 0xf0 == 0xd0)
    ensures Pack16(lo, hi) & Ccmp.WLAN_FC_ISWEP != 0 <==> hi & 0x40 != 0
  {
  }

  lemma SameKind(d: MgmtData)
    ensures RobustKind(d) == Robust(d) && Encrypted(d) == IsProtected(d)
    ensures PublicAction(d) <==> Subtype(d) == WLAN_FC_STYPE_ACTION && |d| > 24 && d[24] == WLAN_ACTION_PUBLIC
    ensures d[0] & 0xf0 == 0xb0 <==> Subtype(d) == WLAN_FC_STYPE_AUTH
    ensures d[0] & 0xf0 == 0xa0 <==> Subtype(d) == WLAN_FC_STYPE_DISASSOC
    ensures d[0] & 0xf0 == 0xc0 <==> Subtype(d) == WLAN_FC_STYPE_DEAUTH
    ensures d[0] & 0xf0 == 0xd0 <==> Subtype(d) == WLAN_FC_STYPE_ACTION
    ensures d[0] & 0xf0 == 0x00 <==> Subtype(d) == WLAN_FC_STYPE_ASSOC_REQ
    ensures d[0] & 0xf0 == 0x10 <==> Subtype(d) == WLAN_FC_STYPE_ASSOC_RESP
    ensures d[0] & 0xf0 == 0x20 <==> Subtype(d) == WLAN_FC_STYPE_REASSOC_REQ
    ensures d[0] & 0xf0 == 0x30 <==> Subtype(d) == WLAN_FC_STYPE_REASSOC_RESP
    ensures d[0] & 0xf0 == 0x80 <==> Subtype(d) == WLAN_FC_STYPE_BEACON
    ensures d[0] & 0xf0 == 0x50 <==> Subtype(d) == WLAN_FC_STYPE_PROBE_RESP
  {
    KindBits(d[0], d[1]);
    hide Ccmp.FcSubtype, Pack16;
  }

  lemma AddressOctets(d: MgmtData)
    ensures Da(d) == d[4..10] && Sa(d) == d[10..16] && BssidOf(d) == d[16..22]
    ensures CheckAddr(d) == CheckedSta(d) && HandlerAddr(d) == ActedSta(d) && ForGroup(d) == Group(Da(d))
  {
  }

  lemma FieldsAreZero(lo: Octet, hi: Octet, two: Octet)
    ensures Pack16(lo, hi) == 0 <==> lo == 0 && hi == 0
    ensures Pack16(lo, hi) == 2 <==> lo == 2 && hi == 0
  {
  }

  lemma AuthOctets(d: MgmtData)
    ensures AuthOp(d) == Authenticated <==> |d| >= 30 && d[24..30] == [0, 0, 2, 0, 0, 0]
  {
    if |d| >= 30 {
      FieldsAreZero(d[24], d[25], 0);
      FieldsAreZero(d[26], d[27], 0);
      FieldsAreZero(d[28], d[29], 0);
      hide Pack16;
      assert d[24..30] == [d[24], d[25], d[26], d[27], d[28], d[29]];
    }
  }

  lemma AssocRespOctets(d: MgmtData)
    ensures AssocRespOp(d) == Associated <==> |d| >= 30 && d[26] == 0 && d[27] == 0
  {
    if |d| >= 30 {
      FieldsAreZero(d[26], d[27], 0);
      hide Pack16;
    }
  }

  lemma BodyIs(c: Crypto, s: StaV, d: MgmtData)
    ensures Body(c, s, d).Some? <==> OpensFor(c, s, d)
    ensures Body(c, s, d).Some? ==> |Body(c, s, d).value| == |d| - 40
  {
    hide Ccmp.Unprotect, Ccmp.HeaderReach, GetLe16;
    if |d| >= 40 && Body(c, s, d).Some? {
      OpenLength(c.aes(s.ptk.tk1), d, d[24..]);
    }
  }

  lemma OpenLength(aes: Ccm.Cipher, hdr: Octets, data: Octets)
    requires |hdr| >= 32 && Ccmp.Unprotect(aes, hdr, data).Some?
    ensures |Ccmp.Unprotect(aes, hdr, data).value| == |data| - 16
  {
  }

  lemma NotedIs(c: Crypto, s: StaV, d: MgmtData)
    requires EncryptedForOne(d) && s.addr == CheckAddr(d) && Body(c, s, d).Some?
    ensures |d| >= 40 && NotePn(s, d) == Noted(c, d, s)
  {
    BodyIs(c, s, d);
    assert d[24..][7] == d[31] && d[24..][6] == d[30] && d[24..][5] == d[29] && d[24..][4] == d[28];
    assert d[24..][1] == d[25] && d[24..][0] == d[24];
    hide Body, OpensFor;
  }

  // ---- The steps of the model on one station

  /** The record `t` of a station that was listed, or is now. */
  function Outcome(w: World, id: Addr, addr: Addr, listed: bool, t: StaV): Option<StaV> {
    if StaAt(w, id, addr).Some? || listed then Some(t) else None
  }

  lemma GetOutcome(w: World, bssid: Addr, a: Addr, id: Addr, addr: Addr)
    requires !Group(id) && !Group(addr)
    ensures StaAt(Get(w, bssid, a), id, addr) == Outcome(w, id, addr, id == bssid && addr == a, RecordOf(w, id, addr))
  {
    GetAt(w, bssid, a, id, addr);
    hide Get, StaAt, Group, NewSta;
  }

  lemma OnStaOutcome(w: World, bssid: Addr, a: Addr, op: StaOp, id: Addr, addr: Addr)
    requires !Group(id) && !Group(addr)
    ensures var s := RecordOf(w, id, addr);
            var here := id == bssid && addr == a;
            StaAt(OnSta(w, bssid, a, op), id, addr) == Outcome(w, id, addr, here, if here then Apply(op, s) else s)
  {
    GetOutcome(w, bssid, a, id, addr);
    var v := Get(w, bssid, a);
    hide Get, StaAt, Group, Update, Apply, NewSta;
    if !Group(bssid) && !Group(a) && StaAt(v, bssid, a).Some? {
      UpdateAt(v, bssid, Apply(op, StaAt(v, bssid, a).value), id, addr);
    }
  }

  lemma GetBssSta(w: World, bssid: Addr, id: Addr, addr: Addr)
    ensures StaAt(GetBss(w, bssid), id, addr) == StaAt(w, id, addr)
  {
    GetBssAt(w, bssid, id);
    NoStas(NewBss(bssid), addr);
    hide GetBss, Group, FindBss, FindSta, NewBss;
  }

  lemma BeaconSta(w: World, d: MgmtData, info: Info, id: Addr, addr: Addr)
    ensures StaAt(Beacon(w, d, info), id, addr) == StaAt(w, id, addr)
  {
    var bssid := BssidOf(d);
    GetBssSta(w, bssid, id, addr);
    var v := GetBss(w, bssid);
    hide GetBss, Group, PutBss, FindBss, StaAt;
    if HasBss(v, bssid) {
      PutKeeps(v, Announced(TheBss(v, bssid), info), id, addr);
    }
  }

  lemma BipSta(c: Crypto, w: World, d: MgmtData, id: Addr, addr: Addr)
    ensures StaAt(CheckBip(c, w, d).0, id, addr) == StaAt(w, id, addr)
  {
    var bssid := BssidOf(d);
    GetBssSta(w, bssid, id, addr);
    var v := GetBss(w, bssid);
    hide CheckMmie, GetBss, Group, PutBss, FindBss, StaAt, Subtype;
    if HasBss(v, bssid) {
      PutKeeps(v, CheckMmie(c, TheBss(v, bssid), d).0, id, addr);
    }
  }

  lemma NotedWhenOpen(c: Crypto, s: StaV, d: MgmtData)
    requires EncryptedForOne(d) && s.addr == CheckAddr(d)
    ensures Body(c, s, d).Some? ==> |d| >= 40 && NotePn(s, d) == Noted(c, d, s)
    ensures Body(c, s, d).None? ==> Noted(c, d, s) == s
  {
    BodyIs(c, s, d);
    if Body(c, s, d).Some? {
      NotedIs(c, s, d);
    }
    hide Body, OpensFor, NotePn;
  }

  /** The station that is checked, where there is one. */
  predicate Opened(c: Crypto, w: World, d: MgmtData) {
    var bssid, a := BssidOf(d), CheckAddr(d);
    !Group(bssid) && !Group(a) && Body(c, RecordOf(w, bssid, a), d).Some?
  }

  lemma Decrypted(c: Crypto, w: World, d: MgmtData)
    ensures var bssid, a := BssidOf(d), CheckAddr(d);
            var v := Get(w, bssid, a);
            var (u, plain) := MgmtCcmpDecrypt(c, w, d);
            && (plain.Some? <==> Opened(c, w, d)) && (plain.None? ==> u == v)
            && (plain.Some? ==> |d| >= 40 && StaAt(v, bssid, a) == Some(RecordOf(w, bssid, a))
                                && u == Update(v, bssid, NotePn(RecordOf(w, bssid, a), d))
                                && plain == Some(d[..24] + Body(c, RecordOf(w, bssid, a), d).value))
  {
    var bssid, a := BssidOf(d), CheckAddr(d);
    hide Get, StaAt, Group, Body, Update, NotePn, CheckAddr, BssidOf, RecordOf;
    if !Group(bssid) && !Group(a) {
      GetOutcome(w, bssid, a, bssid, a);
      if Body(c, RecordOf(w, bssid, a), d).Some? {
        BodyLength(c, RecordOf(w, bssid, a), d);
      }
    }
  }

  lemma DecryptSta(c: Crypto, w: World, d: MgmtData, id: Addr, addr: Addr)
    requires EncryptedForOne(d) && !Group(id) && !Group(addr)
    ensures var s := RecordOf(w, id, addr);
            var here := id == BssidOf(d) && addr == CheckAddr(d);
            StaAt(MgmtCcmpDecrypt(c, w, d).0, id, addr)
            == Outcome(w, id, addr, here, if here then Noted(c, d, s) else s)
  {
    var bssid, a := BssidOf(d), CheckAddr(d);
    var s := RecordOf(w, bssid, a);
    GetOutcome(w, bssid, a, id, addr);
    Decrypted(c, w, d);
    NotedWhenOpen(c, s, d);
    hide MgmtCcmpDecrypt, Get, StaAt, Group, Body, Update, NotePn, CheckAddr, BssidOf, Noted, EncryptedForOne, RecordOf;
    if Opened(c, w, d) {
      UpdateAt(Get(w, bssid, a), bssid, NotePn(s, d), id, addr);
    }
  }

  /** The checks look up the station to be checked. */
  predicate LooksUp(d: MgmtData) { RobustKind(d) && !ForGroup(d) && (Encrypted(d) || !PublicAction(d)) }

  lemma CcmpCheckSta(w: World, d: MgmtData, id: Addr, addr: Addr)
    requires RobustKind(d) && !ForGroup(d) && !Encrypted(d) && !Group(id) && !Group(addr)
    ensures StaAt(CheckMgmtCcmp(w, d).0, id, addr)
            == Outcome(w, id, addr, LooksUp(d) && id == BssidOf(d) && addr == CheckAddr(d), RecordOf(w, id, addr))
  {
    SameKind(d);
    GetOutcome(w, BssidOf(d), CheckAddr(d), id, addr);
    hide Get, StaAt, Group, Subtype, BssidOf, CheckAddr, NewSta, RobustKind, PublicAction;
  }

  lemma PrecheckSta(c: Crypto, w: World, d: MgmtData, id: Addr, addr: Addr)
    requires !Group(id) && !Group(addr)
    ensures var s := RecordOf(w, id, addr);
            var here := id == BssidOf(d) && addr == CheckAddr(d);
            StaAt(Precheck(c, w, d).world, id, addr)
            == Outcome(w, id, addr, LooksUp(d) && here, if here then Noted(c, d, s) else s)
  {
    SameKind(d);
    AddressOctets(d);
    hide Subtype, BssidOf, CheckAddr, CheckedSta, StaAt, Robust, IsProtected, Group, NewSta, RobustKind, Encrypted,
      ForGroup, PublicAction, MgmtCcmpDecrypt, CheckMgmtCcmp, CheckBip, OpensFor, Da, RecordOf;
    if !Robust(d) {
      RecordIs(w, id, addr);
    } else if Group(Da(d)) {
      BipSta(c, w, d, id, addr);
      RecordIs(w, id, addr);
    } else if IsProtected(d) {
      DecryptSta(c, w, d, id, addr);
    } else {
      CcmpCheckSta(w, d, id, addr);
    }
  }

  lemma RecordIs(w: World, id: Addr, addr: Addr)
    ensures StaAt(w, id, addr) == Outcome(w, id, addr, false, RecordOf(w, id, addr))
  {
  }

  lemma LeaveSta(w: World, d: MgmtData, valid: bool, to: AssocState, id: Addr, addr: Addr)
    requires !Group(id) && !Group(addr) && to != State3
    ensures var s := RecordOf(w, id, addr);
            StaAt(Leave(w, d, valid, to), id, addr)
            == Outcome(w, id, addr, id == BssidOf(d) && addr == HandlerAddr(d),
                       if id == BssidOf(d) && |d| >= 26 && valid && ActsOn(d, addr) then Lowered(s, to) else s)
  {
    var bssid := BssidOf(d);
    GetOutcome(w, bssid, HandlerAddr(d), id, addr);
    var v := Get(w, bssid, HandlerAddr(d));
    hide Get, Group, Left, FindBss, FindSta, PutBss, HandlerAddr, BssidOf, ActsOn, NewSta, Lowered;
    if HasBss(v, bssid) {
      LeftAt(TheBss(v, bssid), d, valid, to, addr);
      PutBssAt(v, Left(TheBss(v, bssid), d, valid, to), id);
    }
  }

  // ---- Leaving frames are judged as their octets say.

  lemma KeyIdBits(lo: Octet, hi: Octet)
    ensures Pack16(lo, hi) & 0x0fff == 4 <==> lo == 4 && hi & 0x0f == 0
    ensures Pack16(lo, hi) & 0x0fff == 5 <==> lo == 5 && hi & 0x0f == 0
  {
  }

  lemma MmieJudged(c: Crypto, b: BssV, d: MgmtData)
    ensures CheckMmie(c, b, d).1 == GroupOk(c, b, d)
  {
    if |d| >= 42 {
      KeyIdBits(d[|d| - 16], d[|d| - 15]);
    }
    hide Bip.MicOk, Pack16;
  }

  lemma NewBssJudged(c: Crypto, bssid: Addr, d: MgmtData)
    ensures GroupOk(c, NewBss(bssid), d)
  {
  }

  lemma GroupJudged(c: Crypto, w: World, d: MgmtData)
    requires RobustKind(d) && d[0] & 0xf0 != 0xd0 && ForGroup(d) && !Group(BssidOf(d))
    ensures var k := Precheck(c, w, d); k.data == d && k.valid == GroupOk(c, BssRecordOf(w, BssidOf(d)), d)
  {
    SameKind(d);
    AddressOctets(d);
    var bssid := BssidOf(d);
    GetBssAt(w, bssid, bssid);
    MmieJudged(c, BssRecordOf(w, bssid), d);
    hide Group, Da, BssidOf, Subtype, CheckMmie, GroupOk, RobustKind, FindBss, GetBss, NewBss, PutBss;
  }

  lemma OneJudged(c: Crypto, w: World, d: MgmtData)
    requires RobustKind(d) && d[0] & 0xf0 != 0xd0 && !ForGroup(d) && !Group(BssidOf(d))
    ensures var k := Precheck(c, w, d);
            k.valid && |k.data| >= 26 <==> Judged(c, w, BssidOf(d), d)
  {
    SameKind(d);
    AddressOctets(d);
    var bssid, a := BssidOf(d), CheckAddr(d);
    var s := RecordOf(w, bssid, a);
    GetKeeps(w, bssid, a, bssid, a);
    GetAt(w, bssid, a, bssid, a);
    if Encrypted(d) {
      Decrypted(c, w, d);
      BodyIs(c, s, d);
      hide Group, Da, BssidOf, CheckAddr, CheckedSta, Subtype, RobustKind, MgmtCcmpDecrypt, Body, OpensFor, Get, StaAt,
        NotePn, Update, RecordOf;
    } else {
      hide Da, BssidOf, CheckAddr, CheckedSta, Subtype, RobustKind, Get, StaAt;
    }
  }

  // ---- Management frames

  lemma RecordThen(w: World, v: World, id: Addr, addr: Addr, listed: bool, t: StaV)
    requires StaAt(v, id, addr) == Outcome(w, id, addr, listed, t)
    requires t == RecordOf(w, id, addr) || StaAt(w, id, addr).Some? || listed || t == NewSta(addr)
    requires !listed && StaAt(w, id, addr).None? ==> t == NewSta(addr)
    ensures RecordOf(v, id, addr) == t
  {
    hide StaAt, NewSta;
  }

  lemma NotedNew(c: Crypto, d: MgmtData, addr: Addr)
    ensures Noted(c, d, NewSta(addr)) == NewSta(addr)
  {
  }

  /** What the checks leave of a record. */
  lemma PrecheckRecord(c: Crypto, w: World, d: MgmtData, id: Addr, addr: Addr)
    requires !Group(id) && !Group(addr)
    ensures var s, v := RecordOf(w, id, addr), Precheck(c, w, d).world;
            var t := if id == BssidOf(d) then Noted(c, d, s) else s;
            && RecordOf(v, id, addr) == t
            && StaAt(v, id, addr)
               == Outcome(w, id, addr, LooksUp(d) && id == BssidOf(d) && addr == CheckAddr(d), t)
  {
    PrecheckSta(c, w, d, id, addr);
    NotedNew(c, d, addr);
    NotedOther(c, d, RecordOf(w, id, addr));
    hide Precheck, StaAt, Noted, LooksUp, BssidOf, CheckAddr, CheckedSta, NewSta, Group;
  }

  lemma NotedOther(c: Crypto, d: MgmtData, s: StaV)
    ensures s.addr != CheckAddr(d) ==> Noted(c, d, s) == s
  {
    AddressOctets(d);
    hide CheckAddr, CheckedSta;
  }

  lemma LeavingKinds(d: MgmtData)
    ensures Leaving(d) <==> d[0] & 0xf0 == 0xa0 || d[0] & 0xf0 == 0xc0
    ensures Leaving(d) ==> RobustKind(d) && LeavingTo(d) == (if d[0] & 0xf0 == 0xc0 then State1 else State2)
  {
    SameKind(d);
    hide Subtype;
  }

  lemma ReleasedIs(s: StaV, d: MgmtData)
    requires Leaving(d)
    ensures Lowered(s, LeavingTo(d)) == Released(s, d)
  {
    LeavingKinds(d);
    hide Leaving, LeavingTo;
  }

  lemma LeavingJudged(c: Crypto, w: World, d: MgmtData)
    requires Leaving(d) && !Group(BssidOf(d))
    ensures var k := Precheck(c, w, d); k.valid && |k.data| >= 26 <==> Judged(c, w, BssidOf(d), d)
  {
    LeavingKinds(d);
    if ForGroup(d) {
      GroupJudged(c, w, d);
    } else {
      OneJudged(c, w, d);
    }
    hide Precheck, Leaving, LeavingTo, RobustKind, BssidOf, GroupOk, OpensFor, RecordOf, Group, CheckedSta;
  }

  /** What the frame makes of a record, where it is a leaving frame. */
  lemma AfterLeaving(c: Crypto, w: World, d: MgmtData, info: Info, id: Addr, s: StaV)
    requires Leaving(d)
    ensures MgmtAfter(c, w, d, info, id, s)
            == if ActsOn(d, s.addr) && Judged(c, w, id, d) then Released(Noted(c, d, s), d) else Noted(c, d, s)
    ensures MgmtLists(d, s.addr) <==> s.addr == HandlerAddr(d) || (LooksUp(d) && s.addr == CheckAddr(d))
  {
    LeavingKinds(d);
    AddressOctets(d);
    hide Leaving, Judged, Noted, Released, HandlerAddr, ActedSta, CheckAddr, CheckedSta, Da, PublicAction;
  }

  lemma LeavingSta(c: Crypto, w: World, d: MgmtData, info: Info, id: Addr, addr: Addr)
    requires Leaving(d) && !Group(id) && !Group(addr)
    ensures var s := RecordOf(w, id, addr);
            var here := id == BssidOf(d);
            StaAt(RxMgmt(c, w, d, info), id, addr)
            == Outcome(w, id, addr, here && MgmtLists(d, addr), if here then MgmtAfter(c, w, d, info, id, s) else s)
  {
    var k := Precheck(c, w, d);
    var s := RecordOf(w, id, addr);
    PrecheckKeeps(c, w, d, id, addr);
    PrecheckRecord(c, w, d, id, addr);
    SameActsOn(d, k.data, addr);
    RxLeaving(c, w, d, info);
    LeaveSta(k.world, k.data, k.valid, LeavingTo(d), id, addr);
    ReleasedIs(Noted(c, d, s), d);
    AfterLeaving(c, w, d, info, id, s);
    if id == BssidOf(d) {
      LeavingJudged(c, w, d);
    }
    hide Precheck, RxMgmt, Leave, StaAt, RecordOf, Keeps, KeepsLinks, Group, ActsOn, BssidOf, HandlerAddr, CheckAddr,
      Leaving, LeavingTo, Lowered, Released, Noted, MgmtAfter, MgmtLists, LooksUp, Judged;
  }

  lemma SameActsOn(d: MgmtData, f: MgmtData, addr: Addr)
    requires f[..24] == d[..24]
    ensures BssidOf(f) == BssidOf(d) && HandlerAddr(f) == HandlerAddr(d) && ActsOn(f, addr) == ActsOn(d, addr)
  {
    HeaderAddresses(d, f);
    hide Group, Da, BssidOf, HandlerAddr;
  }

  lemma AfterAction(c: Crypto, w: World, d: MgmtData, info: Info, id: Addr, s: StaV)
    requires d[0] & 0xf0 == 0xd0
    ensures MgmtAfter(c, w, d, info, id, s) == Noted(c, d, s)
    ensures MgmtLists(d, s.addr)
            <==> (!ForGroup(d) && s.addr == HandlerAddr(d)) || (LooksUp(d) && s.addr == CheckAddr(d))
  {
    AddressOctets(d);
    hide Judged, Noted, Released, HandlerAddr, ActedSta, CheckAddr, CheckedSta, Da, PublicAction, ForGroup;
  }

  lemma ActionIs(c: Crypto, w: World, d: MgmtData, info: Info)
    requires Subtype(d) == WLAN_FC_STYPE_ACTION
    ensures var v := Precheck(c, w, d).world;
            RxMgmt(c, w, d, info) == if ForGroup(d) then v else OnSta(v, BssidOf(d), HandlerAddr(d), Nothing)
  {
    PrecheckKeeps(c, w, d, BssidOf(d), BssidOf(d));
    HeaderAddresses(d, Precheck(c, w, d).data);
    AddressOctets(d);
    hide Precheck, OnSta, Keeps, KeepsLinks, Group, BssidOf, HandlerAddr, Da, Subtype, ForGroup, CheckAddr, ActedSta,
      CheckedSta;
  }

  lemma ActionSta(c: Crypto, w: World, d: MgmtData, info: Info, id: Addr, addr: Addr)
    requires Subtype(d) == WLAN_FC_STYPE_ACTION && !Group(id) && !Group(addr)
    ensures var s := RecordOf(w, id, addr);
            var here := id == BssidOf(d);
            StaAt(RxMgmt(c, w, d, info), id, addr)
            == Outcome(w, id, addr, here && MgmtLists(d, addr), if here then MgmtAfter(c, w, d, info, id, s) else s)
  {
    var v := Precheck(c, w, d).world;
    SameKind(d);
    ActionIs(c, w, d, info);
    PrecheckRecord(c, w, d, id, addr);
    AfterAction(c, w, d, info, id, RecordOf(w, id, addr));
    OnStaOutcome(v, BssidOf(d), HandlerAddr(d), Nothing, id, addr);
    hide RxMgmt, Precheck, OnSta, StaAt, RecordOf, Group, BssidOf, HandlerAddr, CheckAddr, Noted, Subtype, MgmtAfter,
      MgmtLists, LooksUp, ForGroup, NewSta, RobustKind, Encrypted, PublicAction, Da, Sa, CheckedSta, ActedSta;
  }

  /** Which station a frame that is not robust has looked up, and what becomes of it. */
  function OpOf(d: MgmtData, info: Info): Option<(Addr, StaOp)> {
    if Subtype(d) == WLAN_FC_STYPE_AUTH then Some((HandlerAddr(d), AuthOp(d)))
    else if Subtype(d) == WLAN_FC_STYPE_ASSOC_REQ then Some((Sa(d), AssocReqOp(d, 4, info)))
    else if Subtype(d) == WLAN_FC_STYPE_REASSOC_REQ then Some((Sa(d), AssocReqOp(d, 10, info)))
    else if Subtype(d) == WLAN_FC_STYPE_ASSOC_RESP || Subtype(d) == WLAN_FC_STYPE_REASSOC_RESP then
      Some((Da(d), AssocRespOp(d)))
    else None
  }

  /** Frames that are not robust are not checked. */
  lemma Unchecked(c: Crypto, w: World, d: MgmtData, info: Info)
    requires !Robust(d)
    ensures RxMgmt(c, w, d, info)
            == match OpOf(d, info)
               case Some((a, op)) => OnSta(w, BssidOf(d), a, op)
               case None => if IsBeacon(d) then Beacon(w, d, info) else w
  {
    hide Subtype, OnSta, Beacon, AuthOp, AssocReqOp, AssocRespOp, BssidOf, HandlerAddr, Sa, Da;
  }

  lemma AfterOther(c: Crypto, w: World, d: MgmtData, info: Info, id: Addr, s: StaV)
    requires !Robust(d)
    ensures var op := OpOf(d, info);
            && (MgmtLists(d, s.addr) <==> op.Some? && op.value.0 == s.addr)
            && MgmtAfter(c, w, d, info, id, s)
               == if op.Some? && op.value.0 == s.addr then Apply(op.value.1, s) else s
  {
    SameKind(d);
    AddressOctets(d);
    AuthOctets(d);
    AssocRespOctets(d);
    hide Subtype, AuthOp, AssocRespOp, BssidOf, HandlerAddr, Sa, Da, Judged, CheckAddr, CheckedSta, ActedSta, ForGroup,
      Encrypted, Released, OpensFor;
  }

  lemma OtherSta(c: Crypto, w: World, d: MgmtData, info: Info, id: Addr, addr: Addr)
    requires !Robust(d) && !Group(id) && !Group(addr)
    ensures var s := RecordOf(w, id, addr);
            var here := id == BssidOf(d);
            StaAt(RxMgmt(c, w, d, info), id, addr)
            == Outcome(w, id, addr, here && MgmtLists(d, addr), if here then MgmtAfter(c, w, d, info, id, s) else s)
  {
    Unchecked(c, w, d, info);
    AfterOther(c, w, d, info, id, RecordOf(w, id, addr));
    RecordIs(w, id, addr);
    BeaconSta(w, d, info, id, addr);
    var op := OpOf(d, info);
    if op.Some? {
      OnStaOutcome(w, BssidOf(d), op.value.0, op.value.1, id, addr);
    }
    hide RxMgmt, OnSta, Beacon, StaAt, Group, RecordOf, BssidOf, OpOf, MgmtAfter, MgmtLists, Apply, Robust, IsBeacon;
  }

  /** A management frame does to each station what its octets say. */
  lemma MgmtSta(c: Crypto, w: World, d: MgmtData, info: Info, id: Addr, addr: Addr)
    requires !Group(id) && !Group(addr)
    ensures var s := RecordOf(w, id, addr);
            var here := id == d[16..22];
            StaAt(RxMgmt(c, w, d, info), id, addr)
            == Outcome(w, id, addr, here && MgmtLists(d, addr), if here then MgmtAfter(c, w, d, info, id, s) else s)
  {
    AddressOctets(d);
    hide RxMgmt, StaAt, Group, RecordOf, MgmtAfter, MgmtLists, CheckAddr, HandlerAddr, CheckedSta, ActedSta;
    if Leaving(d) {
      LeavingSta(c, w, d, info, id, addr);
    } else if Subtype(d) == WLAN_FC_STYPE_ACTION {
      ActionSta(c, w, d, info, id, addr);
    } else {
      OtherSta(c, w, d, info, id, addr);
    }
  }

  // ---- Messages and data

  lemma CodeIsMic(c: Crypto, kck: Octets, d: KeyFrame)
    ensures CodeIs(c, kck, d) == MicOk(c, kck, d)
  {
    InfoBits(d[5], d[6]);
    hide Pack16;
  }

  lemma {:induction false} KeyedIs(c: Crypto, id: Addr, s: StaV, d: KeyFrame, pmks: seq<Pmk>)
    ensures Keyed(c, id, s, d, pmks) == DerivePtk(c, id, s, d, pmks)
    decreases |pmks|
  {
    if pmks != [] {
      CodeIsMic(c, PtkFor(c, id, s, pmks[0]).kck, d);
      hide CodeIs, MicOk;
      KeyedIs(c, id, s, d, pmks[1..]);
    }
  }

  lemma HeldIs(c: Crypto, s: StaV, d: KeyFrame)
    ensures HeldConfirms(c, s, d) == Verifies(c, s, d)
  {
    CodeIsMic(c, s.ptk.kck, d);
    CodeIsMic(c, s.tptk.kck, d);
    hide CodeIs, MicOk;
  }

  lemma OneMessage(d: Octets, m: Message, n: Message)
    requires MessageIs(d, m)
    ensures MessageIs(d, n) <==> n == m
  {
    ClassifyOctets(d, m);
    ClassifyOctets(d, n);
    hide MessageIs, Classify;
  }

  lemma KeyFrameIs(c: Crypto, id: Addr, s: StaV, m: Message, d: KeyFrame, pmks: seq<Pmk>, learned: Option<Sec>)
    requires MessageIs(d, m)
    ensures StaStep(c, id, s, m, d, pmks, learned) == KeyFrameAfter(c, id, s, d, pmks, learned)
  {
    OneMessage(d, m, Msg1);
    OneMessage(d, m, Msg2);
    OneMessage(d, m, Msg3);
    OneMessage(d, m, Msg4);
    var u := s.(snonce := KeyNonce(d));
    KeyedIs(c, id, u, d, pmks);
    KeyedIs(c, id, s.(anonce := KeyNonce(d)), d, pmks);
    HeldIs(c, DerivePtk(c, id, u, d, pmks), d);
    HeldIs(c, s, d);
    CodeIsMic(c, s.tptk.kck, d);
    hide MessageIs, Keyed, DerivePtk, CodeIs, MicOk;
  }

  lemma BetweenIs(e: Event, id: Addr, addr: Addr)
    requires e.Eapol?
    ensures BetweenThem(e, id, addr)
            <==> Classify(e.key).Some?
                 && id == ApOf(Classify(e.key).value, e.dst, e.src)
                 && addr == StaOf(Classify(e.key).value, e.dst, e.src)
  {
    ClassifyOctets(e.key, Msg1);
    ClassifyOctets(e.key, Msg2);
    ClassifyOctets(e.key, Msg3);
    ClassifyOctets(e.key, Msg4);
    ClassifyOctets(e.key, Group1);
    ClassifyOctets(e.key, Group2);
    hide MessageIs, Classify;
  }

  lemma MessageOutcome(c: Crypto, w: World, m: Message, e: Event, id: Addr, addr: Addr)
    requires e.Eapol? && |e.key| >= 99 && !Group(id) && !Group(addr)
    ensures var s := RecordOf(w, id, addr);
            var here := id == ApOf(m, e.dst, e.src) && addr == StaOf(m, e.dst, e.src);
            StaAt(RxMessage(c, w, m, e), id, addr)
            == Outcome(w, id, addr, here, if here then StaStep(c, id, s, m, e.key, Pmks(w, id), e.learned) else s)
  {
    var ap, a := ApOf(m, e.dst, e.src), StaOf(m, e.dst, e.src);
    var v := Get(w, ap, a);
    GetOutcome(w, ap, a, id, addr);
    GetPmks(w, ap, a, ap);
    hide Get, Group, StaStep, BssPmks, OnMessage, StaAt, NewSta;
    if !Group(ap) && !Group(a) && StaAt(v, ap, a).Some? {
      OnMessageSta(c, v, ap, StaAt(v, ap, a).value, m, e, id, addr);
    }
  }

  lemma EapolSta(c: Crypto, w: World, e: Event, id: Addr, addr: Addr)
    requires e.Eapol? && !Group(id) && !Group(addr)
    ensures StaAt(Step(c, w, e), id, addr)
            == Outcome(w, id, addr, Lists(e, id, addr), RecordAfter(c, w, e, id, RecordOf(w, id, addr)))
  {
    BetweenIs(e, id, addr);
    RecordIs(w, id, addr);
    if Classify(e.key).Some? {
      var m := Classify(e.key).value;
      ClassifyOctets(e.key, m);
      MessageOutcome(c, w, m, e, id, addr);
      KeyFrameIs(c, id, RecordOf(w, id, addr), m, e.key, Pmks(w, id), e.learned);
    }
    hide RxMessage, StaAt, RecordOf, StaStep, KeyFrameAfter, BetweenThem, MessageIs, Classify, Group, FindBss,
      MgmtLists;
  }

  lemma DataSta(w: World, e: Event, id: Addr, addr: Addr)
    requires e.DataDecrypted? && !Group(id) && !Group(addr)
    ensures var s := RecordOf(w, id, addr);
            var here := id == e.apId && addr == e.staAddr;
            StaAt(NoteDataPn(w, e), id, addr)
            == Outcome(w, id, addr, here, if here && e.tid <= 16 then NoteTid(s, e.toDs, e.tid, e.pn) else s)
  {
    GetOutcome(w, e.apId, e.staAddr, id, addr);
    var v := Get(w, e.apId, e.staAddr);
    hide Get, StaAt, Group, Update, NewSta, NoteTid;
    if !Group(e.apId) && !Group(e.staAddr) && StaAt(v, e.apId, e.staAddr).Some? && e.tid <= 16 {
      UpdateAt(v, e.apId, NoteTid(StaAt(v, e.apId, e.staAddr).value, e.toDs, e.tid, e.pn), id, addr);
    }
  }

  lemma TdlsSta(c: Crypto, w: World, bssid: Addr, payload: Octets, elems: Option<Elems>, id: Addr, addr: Addr)
    ensures StaAt(RxTdls(c, w, bssid, payload, elems), id, addr) == StaAt(w, id, addr)
  {
    hide Linked, LinkOpOf, PutBss, FindBss, FindSta;
    if elems.Some? && LinkOpOf(payload).Some? && Known(w, elems.value.linkId, bssid) {
      var e := elems.value;
      PutKeeps(w, Linked(c, BssOf(w, e.linkId, bssid), LinkOpOf(payload).value, bssid, e), id, addr);
    }
  }

  /**
    Every step does to each station exactly what the octets of the event say: the record is the
    one before, changed as `RecordAfter` says, and is there if it was or the event has it looked up.
   */
  lemma StepSta(c: Crypto, w: World, e: Event, id: Addr, addr: Addr)
    requires !e.Flush? && !Group(id) && !Group(addr)
    ensures StaAt(Step(c, w, e), id, addr)
            == Outcome(w, id, addr, Lists(e, id, addr), RecordAfter(c, w, e, id, RecordOf(w, id, addr)))
  {
    RecordIs(w, id, addr);
    assert BetweenThem(e, id, addr) ==> e.Eapol?;
    hide MgmtAfter, MgmtLists, RxMgmt, RxTdls, NoteDataPn, RxMessage, AddedBssPmk, RecordOf, Group, StaAt, BetweenThem;
    match e
    case Mgmt(frame, info) =>
      if |frame| >= 24 {
        MgmtSta(c, w, frame, info, id, addr);
      } else {
        ShortFrame(c, w, frame, info);
      }
    case Eapol(_, _, _, _, _) => EapolSta(c, w, e, id, addr);
    case Tdls(bssid, payload, elems) => TdlsSta(c, w, bssid, payload, elems, id, addr);
    case DataDecrypted(_, _, _, _, _) => DataSta(w, e, id, addr);
    case AddPmk(pmk) => SameBss(w, w.(pmks := [pmk] + w.pmks), id, addr);
    case AddBssPmk(bssid, pmk) => BssPmkQuiet(w, bssid, pmk, id, addr);
  }

  lemma ShortFrame(c: Crypto, w: World, d: Octets, info: Info)
    requires |d| < 24
    ensures RxMgmt(c, w, d, info) == w
  {
  }

  lemma SameBss(w: World, v: World, id: Addr, addr: Addr)
    requires w.bss == v.bss
    ensures StaAt(v, id, addr) == StaAt(w, id, addr)
  {
  }
}
