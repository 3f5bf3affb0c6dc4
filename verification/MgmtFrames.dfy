/**
  Management frames (rx_mgmt.c): the checks of their protection, and what each frame does to the
  association state of stations and to direct links.
 */
module MgmtFrames {
  import opened Options
  import opened Octets
  import opened Records
  import opened Handshake
  import opened Ccmp
  import Bip

  const WLAN_FC_STYPE_ASSOC_REQ: bv16 := 0
  const WLAN_FC_STYPE_ASSOC_RESP: bv16 := 1
  const WLAN_FC_STYPE_REASSOC_REQ: bv16 := 2
  const WLAN_FC_STYPE_REASSOC_RESP: bv16 := 3
  const WLAN_FC_STYPE_PROBE_RESP: bv16 := 5
  const WLAN_FC_STYPE_BEACON: bv16 := 8
  const WLAN_FC_STYPE_DISASSOC: bv16 := 10
  const WLAN_FC_STYPE_AUTH: bv16 := 11
  const WLAN_FC_STYPE_DEAUTH: bv16 := 12
  const WLAN_FC_STYPE_ACTION: bv16 := 13

  const WLAN_ACTION_PUBLIC: Octet := 4

  /** A frame that holds a management header. */
  type MgmtData = d: Octets | |d| >= 24 witness Zeros(24)

  function Fc(d: MgmtData): bv16 { GetLe16(d, 0) }

  function Subtype(d: MgmtData): bv16 { FcSubtype(Fc(d)) }

  function Da(d: MgmtData): Addr { d[4..10] }

  function Sa(d: MgmtData): Addr { d[10..16] }

  function BssidOf(d: MgmtData): Addr { d[16..22] }

  predicate IsProtected(d: MgmtData) { Fc(d) & WLAN_FC_ISWEP != 0 }

  /** Deauthentication, disassociation and action frames. */
  predicate Robust(d: MgmtData) {
    Subtype(d) == WLAN_FC_STYPE_DEAUTH || Subtype(d) == WLAN_FC_STYPE_DISASSOC || Subtype(d) == WLAN_FC_STYPE_ACTION
  }

  /** The station whose protection is checked: the receiver, unless that is the access point. */
  function CheckAddr(d: MgmtData): Addr { if Da(d) == BssidOf(d) then Sa(d) else Da(d) }

  /** The station that is acted on: the sender, unless that is the access point. */
  function HandlerAddr(d: MgmtData): Addr { if Sa(d) == BssidOf(d) then Da(d) else Sa(d) }

  /** What the parsers of information elements, which are not modelled, say about a frame. */
  datatype Info = Info(sta: Option<Sec>, apMfpc: Option<bool>, pmks: seq<Pmk>)

  // ---- Checks

  /** `check_bip`: the counters and packet numbers afterwards, and whether the frame passes. */
  function CheckBip(c: Crypto, w: World, d: MgmtData): (World, bool) {
    if Subtype(d) == WLAN_FC_STYPE_ACTION && |d| < 24 + 1 then (w, true)
    else if Subtype(d) == WLAN_FC_STYPE_ACTION && d[24] == WLAN_ACTION_PUBLIC then (w, true)
    else
      var v := GetBss(w, BssidOf(d));
      if Group(BssidOf(d)) || !HasBss(v, BssidOf(d)) then (v, true)
      else
        var (b, ok) := CheckMmie(c, TheBss(v, BssidOf(d)), d);
        (PutBss(v, b), ok)
  }

  /** The part of `check_bip` that looks at the MMIE. */
  function CheckMmie(c: Crypto, b: BssV, d: MgmtData): (r: (BssV, bool))
    ensures r.0.bssid == b.bssid && r.0.stas == b.stas && r.0.tdls == b.tdls
  {
    if !Bip.HasMmie(d) then
      if b.mfpc then (b.(bip := b.bip.(missing := b.bip.missing + 1)), false) else (b, true)
    else if Bip.KeyId(d) != 4 && Bip.KeyId(d) != 5 then
      (b.(bip := b.bip.(invalid := b.bip.invalid + 1)), true)
    else
      var i := if Bip.KeyId(d) == 4 then 4 else 5;
      if !b.igtks[i].known then (b, true)
      else if !Bip.MicOk(c.omac, b.igtks[i].key, d) then
        (b.(bip := b.bip.(invalid := b.bip.invalid + 1)), false)
      else
        (b.(igtks := b.igtks[i := b.igtks[i].(ipn := Bip.IpnOf(d))], bip := b.bip.(valid := b.bip.valid + 1)), true)
  }

  /** The plaintext body of a protected frame under the PTK of a station. */
  function Body(c: Crypto, s: StaV, d: MgmtData): Option<Octets> {
    if !s.ptkSet || |d| < 24 + 4 || d[24 + 3] & 0x20 == 0 || |d| < 24 + 16 then None
    else Unprotect(c.aes(s.ptk.tk1), d, d[24..])
  }

  /** The packet number of the frame noted for its direction. */
  function NotePn(s: StaV, d: MgmtData): (t: StaV)
    requires |d| >= 32
    ensures t.addr == s.addr && t.state == s.state && t.sec == s.sec
  {
    if Da(d) == BssidOf(d) then s.(rscToDs := s.rscToDs[16 := Pn(d[24..])])
    else s.(rscFromDs := s.rscFromDs[16 := Pn(d[24..])])
  }

  /** `mgmt_ccmp_decrypt` */
  function MgmtCcmpDecrypt(c: Crypto, w: World, d: MgmtData): (World, Option<Octets>) {
    var v := Get(w, BssidOf(d), CheckAddr(d));
    match (if Group(BssidOf(d)) || Group(CheckAddr(d)) then None else StaAt(v, BssidOf(d), CheckAddr(d)))
    case None => (v, None)
    case Some(s) =>
      match Body(c, s, d)
      case None => (v, None)
      case Some(m) => (Update(v, BssidOf(d), NotePn(s, d)), Some(d[..24] + m))
  }

  /** `check_mgmt_ccmp` */
  function CheckMgmtCcmp(w: World, d: MgmtData): (World, bool) {
    if Subtype(d) == WLAN_FC_STYPE_ACTION && |d| > 24 && d[24] == WLAN_ACTION_PUBLIC then (w, true)
    else
      var v := Get(w, BssidOf(d), CheckAddr(d));
      match (if Group(BssidOf(d)) || Group(CheckAddr(d)) then None else StaAt(v, BssidOf(d), CheckAddr(d)))
      case None => (v, true)
      case Some(s) => (v, !(s.sec.mfpc && (s.state == State3 || Subtype(d) == WLAN_FC_STYPE_ACTION)))
  }

  /** What comes before the dispatch: the frame to act on, and whether its protection is in order. */
  datatype Checked = Checked(world: World, data: MgmtData, valid: bool)

  function Precheck(c: Crypto, w: World, d: MgmtData): Checked {
    if !Robust(d) then Checked(w, d, true)
    else if Group(Da(d)) then
      var (v, ok) := CheckBip(c, w, d);
      Checked(v, d, ok)
    else if IsProtected(d) then
      match MgmtCcmpDecrypt(c, w, d)
      case (v, None) => Checked(v, d, false)
      case (v, Some(frame)) => Checked(v, frame, true)
    else
      var (v, ok) := CheckMgmtCcmp(w, d);
      Checked(v, d, ok)
  }

  // ---- Handlers

  /** A link after one of its ends, if `addr` is one, has left. */
  function DownFor(t: TdlsV, addr: Addr): (u: TdlsV)
    ensures u.init == t.init && u.resp == t.resp
  {
    if t.init == addr || t.resp == addr then t.(linkUp := false) else t
  }

  /** `tdls_link_down` */
  function LinkDown(tdls: seq<TdlsV>, addr: Addr): (r: seq<TdlsV>)
    ensures |r| == |tdls| && forall i | 0 <= i < |tdls| :: r[i] == DownFor(tdls[i], addr)
  {
    seq(|tdls|, i requires 0 <= i < |tdls| => DownFor(tdls[i], addr))
  }

  /** The state after a deauthentication (`to` is state 1) or a disassociation (state 2). */
  function Lowered(s: StaV, to: AssocState): (t: StaV)
    ensures t.addr == s.addr
  {
    if to == State1 || s.state == State3 then s.(state := to) else s
  }

  /** `deauth_all_stas`, `disassoc_all_stas` */
  function LowerAll(stas: seq<StaV>, to: AssocState): (r: seq<StaV>)
    ensures |r| == |stas| && forall i | 0 <= i < |stas| :: r[i] == Lowered(stas[i], to)
  {
    seq(|stas|, i requires 0 <= i < |stas| => Lowered(stas[i], to))
  }

  /** What a leaving frame makes of its BSS, once the records are found. */
  function Left(b: BssV, d: MgmtData, valid: bool, to: AssocState): (e: BssV)
    ensures e.bssid == b.bssid && e.pmks == b.pmks
  {
    var a := HandlerAddr(d);
    if |d| < 24 + 2 || !valid then b
    else if Group(a) then if Da(d)[0] == 0xff then b.(stas := LowerAll(b.stas, to)) else b
    else if !HasSta(b, a) then b
    else PutSta(b, Lowered(TheSta(b, a), to)).(tdls := LinkDown(b.tdls, a))
  }

  /** `rx_mgmt_deauth` and `rx_mgmt_disassoc` */
  function Leave(w: World, d: MgmtData, valid: bool, to: AssocState): World {
    var v := Get(w, BssidOf(d), HandlerAddr(d));
    if Group(BssidOf(d)) || !HasBss(v, BssidOf(d)) then v
    else PutBss(v, Left(TheBss(v, BssidOf(d)), d, valid, to))
  }

  /** One step on one station record, found or added. */
  datatype StaOp = Authenticated | Associated | SecLearned(sec: Sec) | Nothing

  function Apply(op: StaOp, s: StaV): (t: StaV)
    ensures t.addr == s.addr
  {
    match op
    case Authenticated => if s.state == State1 then s.(state := State2) else s
    case Associated => s.(state := State3)
    case SecLearned(sec) => s.(sec := sec)
    case Nothing => s
  }

  function OnSta(w: World, bssid: Addr, addr: Addr, op: StaOp): World {
    var v := Get(w, bssid, addr);
    match (if Group(bssid) || Group(addr) then None else StaAt(v, bssid, addr))
    case None => v
    case Some(s) => Update(v, bssid, Apply(op, s))
  }

  /** `rx_mgmt_auth`: a successful second open-system frame authenticates. */
  function AuthOp(d: MgmtData): (op: StaOp)
    ensures op == Authenticated || op == Nothing
  {
    if |d| >= 24 + 6 && GetLe16(d, 24) == 0 && GetLe16(d, 26) == 2 && GetLe16(d, 28) == 0 then Authenticated
    else Nothing
  }

  /** `rx_mgmt_assoc_resp`, `rx_mgmt_reassoc_resp`: success associates. */
  function AssocRespOp(d: MgmtData): (op: StaOp)
    ensures op == Associated || op == Nothing
  {
    if |d| >= 24 + 6 && GetLe16(d, 26) == 0 then Associated else Nothing
  }

  /** `rx_mgmt_assoc_req`, `rx_mgmt_reassoc_req`: what the elements of the request say. */
  function AssocReqOp(d: MgmtData, fixed: nat, info: Info): (op: StaOp)
    ensures op.SecLearned? || op == Nothing
  {
    if |d| >= 24 + fixed && info.sta.Some? then SecLearned(info.sta.value) else Nothing
  }

  /** What the elements of a beacon say of its BSS, and PMKs from passphrases. */
  function Announced(b: BssV, info: Info): (d: BssV)
    ensures d.bssid == b.bssid && d.stas == b.stas && d.tdls == b.tdls
  {
    b.(mfpc := if info.apMfpc.Some? then info.apMfpc.value else b.mfpc, pmks := info.pmks + b.pmks)
  }

  /** `rx_mgmt_beacon`, `rx_mgmt_probe_resp` */
  function Beacon(w: World, d: MgmtData, info: Info): World {
    var v := GetBss(w, BssidOf(d));
    if Group(BssidOf(d)) || !HasBss(v, BssidOf(d)) then v
    else PutBss(v, Announced(TheBss(v, BssidOf(d)), info))
  }

  /** The `switch` of `rx_mgmt`. */
  function Dispatch(w: World, d: MgmtData, subtype: bv16, valid: bool, info: Info): World {
    if subtype == WLAN_FC_STYPE_BEACON || subtype == WLAN_FC_STYPE_PROBE_RESP then Beacon(w, d, info)
    else if subtype == WLAN_FC_STYPE_AUTH then OnSta(w, BssidOf(d), HandlerAddr(d), AuthOp(d))
    else if subtype == WLAN_FC_STYPE_DEAUTH then Leave(w, d, valid, State1)
    else if subtype == WLAN_FC_STYPE_DISASSOC then Leave(w, d, valid, State2)
    else if subtype == WLAN_FC_STYPE_ASSOC_REQ then OnSta(w, BssidOf(d), Sa(d), AssocReqOp(d, 4, info))
    else if subtype == WLAN_FC_STYPE_REASSOC_REQ then OnSta(w, BssidOf(d), Sa(d), AssocReqOp(d, 10, info))
    else if subtype == WLAN_FC_STYPE_ASSOC_RESP || subtype == WLAN_FC_STYPE_REASSOC_RESP then
      OnSta(w, BssidOf(d), Da(d), AssocRespOp(d))
    else if subtype == WLAN_FC_STYPE_ACTION && !Group(Da(d)) then OnSta(w, BssidOf(d), HandlerAddr(d), Nothing)
    else w
  }

  /** `rx_mgmt` */
  function RxMgmt(c: Crypto, w: World, d: Octets, info: Info): World {
    if |d| < 24 then w
    else
      var k := Precheck(c, w, d);
      Dispatch(k.world, k.data, Subtype(d), k.valid, info)
  }

  // ---- The checks change no association state, no security parameters and no direct link.

  /** A record with all that the checks leave alone. */
  predicate SameStanding(s: StaV, t: StaV) { t.addr == s.addr && t.state == s.state && t.sec == s.sec }

  predicate Keeps(w: World, v: World, id: Addr, addr: Addr) {
    StaAt(w, id, addr).Some? ==>
      StaAt(v, id, addr).Some? && SameStanding(StaAt(w, id, addr).value, StaAt(v, id, addr).value)
  }

  predicate KeepsLinks(w: World, v: World, id: Addr) {
    HasBss(w, id) ==> HasBss(v, id) && TheBss(v, id).tdls == TheBss(w, id).tdls
  }

  lemma GetKeeps(w: World, bssid: Addr, a: Addr, id: Addr, addr: Addr)
    ensures Keeps(w, Get(w, bssid, a), id, addr)
    ensures StaAt(w, id, addr).Some? ==> StaAt(Get(w, bssid, a), id, addr) == StaAt(w, id, addr)
  {
    hide Get, Group, StaAt;
    GetAt(w, bssid, a, id, addr);
  }

  lemma GetKeepsLinks(w: World, bssid: Addr, a: Addr, id: Addr)
    ensures KeepsLinks(w, Get(w, bssid, a), id)
  {
    hide Group, NewSta, NewBss, GetBss, PutBss, FindBss, HasSta, FindSta;
    GetBssAt(w, bssid, id);
    var v := GetBss(w, bssid);
    if HasBss(v, bssid) && !Group(bssid) {
      PutBssAt(v, GetSta(TheBss(v, bssid), a), id);
    }
  }

  lemma PutKeeps(w: World, b: BssV, id: Addr, addr: Addr)
    requires HasBss(w, b.bssid) && b.stas == TheBss(w, b.bssid).stas
    ensures StaAt(PutBss(w, b), id, addr) == StaAt(w, id, addr)
    ensures b.tdls == TheBss(w, b.bssid).tdls ==> KeepsLinks(w, PutBss(w, b), id)
  {
    hide PutBss, FindBss, FindSta;
    PutBssAt(w, b, id);
  }

  lemma UpdateKeeps(w: World, bssid: Addr, s: StaV, id: Addr, addr: Addr)
    requires StaAt(w, bssid, s.addr).Some? && SameStanding(StaAt(w, bssid, s.addr).value, s)
    ensures Keeps(w, Update(w, bssid, s), id, addr) && KeepsLinks(w, Update(w, bssid, s), id)
  {
    UpdateAt(w, bssid, s, id, addr);
    UpdateKeepsLinks(w, bssid, s, id);
    hide Update, StaAt, KeepsLinks;
  }

  lemma UpdateKeepsLinks(w: World, bssid: Addr, s: StaV, id: Addr)
    requires StaAt(w, bssid, s.addr).Some?
    ensures KeepsLinks(w, Update(w, bssid, s), id)
  {
    hide PutBss, FindBss, FindSta;
    PutBssAt(w, PutSta(TheBss(w, bssid), s), id);
  }

  lemma BipKeeps(c: Crypto, w: World, d: MgmtData, id: Addr, addr: Addr)
    ensures Keeps(w, CheckBip(c, w, d).0, id, addr) && KeepsLinks(w, CheckBip(c, w, d).0, id)
  {
    hide CheckMmie, GetBss, Group, PutBss, FindBss, FindSta, Subtype;
    var bssid := BssidOf(d);
    var v := GetBss(w, bssid);
    GetBssAt(w, bssid, id);
    if HasBss(v, bssid) {
      PutKeeps(v, CheckMmie(c, TheBss(v, bssid), d).0, id, addr);
    }
  }

  lemma DecryptKeeps(c: Crypto, w: World, d: MgmtData, id: Addr, addr: Addr)
    ensures var v := MgmtCcmpDecrypt(c, w, d).0; Keeps(w, v, id, addr) && KeepsLinks(w, v, id)
  {
    var bssid, a := BssidOf(d), CheckAddr(d);
    var v := Get(w, bssid, a);
    GetKeeps(w, bssid, a, id, addr);
    GetKeepsLinks(w, bssid, a, id);
    hide Get, StaAt, Group, Body, Update, KeepsLinks, NotePn, CheckAddr, BssidOf;
    if !Group(bssid) && !Group(a) && StaAt(v, bssid, a).Some? && Body(c, StaAt(v, bssid, a).value, d).Some? {
      BodyLength(c, StaAt(v, bssid, a).value, d);
      UpdateKeeps(v, bssid, NotePn(StaAt(v, bssid, a).value, d), id, addr);
      LinksTransitive(w, v, Update(v, bssid, NotePn(StaAt(v, bssid, a).value, d)), id);
    }
  }

  lemma BodyLength(c: Crypto, s: StaV, d: MgmtData)
    requires Body(c, s, d).Some?
    ensures |d| >= 40
  {
  }

  lemma LinksTransitive(u: World, v: World, w: World, id: Addr)
    requires KeepsLinks(u, v, id) && KeepsLinks(v, w, id)
    ensures KeepsLinks(u, w, id)
  {
  }

  /** The checks of `rx_mgmt` leave all that alone, and the header of the frame. */
  lemma PrecheckKeeps(c: Crypto, w: World, d: MgmtData, id: Addr, addr: Addr)
    ensures var k := Precheck(c, w, d);
            Keeps(w, k.world, id, addr) && KeepsLinks(w, k.world, id) && |k.data| >= 24 && k.data[..24] == d[..24]
  {
    hide Keeps, KeepsLinks, CheckBip, MgmtCcmpDecrypt, CheckMgmtCcmp, Robust, Group, IsProtected;
    KeepsItself(w, id, addr);
    if Robust(d) {
      if Group(Da(d)) {
        BipKeeps(c, w, d, id, addr);
      } else if IsProtected(d) {
        DecryptKeeps(c, w, d, id, addr);
        if MgmtCcmpDecrypt(c, w, d).1.Some? {
          DecryptedHeader(c, w, d);
        }
      } else {
        CcmpCheckKeeps(w, d, id, addr);
      }
    }
  }

  lemma KeepsItself(w: World, id: Addr, addr: Addr)
    ensures Keeps(w, w, id, addr) && KeepsLinks(w, w, id)
  {
    hide StaAt;
  }

  lemma DecryptedHeader(c: Crypto, w: World, d: MgmtData)
    requires MgmtCcmpDecrypt(c, w, d).1.Some?
    ensures var f := MgmtCcmpDecrypt(c, w, d).1.value; |f| >= 24 && f[..24] == d[..24]
  {
    hide Get, StaAt, Group, Body, Update, NotePn;
  }

  lemma CcmpCheckKeeps(w: World, d: MgmtData, id: Addr, addr: Addr)
    ensures var v := CheckMgmtCcmp(w, d).0; Keeps(w, v, id, addr) && KeepsLinks(w, v, id)
  {
    KeepsItself(w, id, addr);
    GetKeeps(w, BssidOf(d), CheckAddr(d), id, addr);
    GetKeepsLinks(w, BssidOf(d), CheckAddr(d), id);
    hide Keeps, KeepsLinks, Get, StaAt, Group;
  }

  // ---- Leaving frames

  predicate Leaving(d: MgmtData) { Subtype(d) == WLAN_FC_STYPE_DEAUTH || Subtype(d) == WLAN_FC_STYPE_DISASSOC }

  function LeavingTo(d: MgmtData): AssocState { if Subtype(d) == WLAN_FC_STYPE_DEAUTH then State1 else State2 }

  lemma RxLeaving(c: Crypto, w: World, d: MgmtData, info: Info)
    requires Leaving(d)
    ensures var k := Precheck(c, w, d); RxMgmt(c, w, d, info) == Leave(k.world, k.data, k.valid, LeavingTo(d))
  {
    hide Precheck, Leave, Subtype;
  }

  /**
    A deauthentication or disassociation judged invalid leaves the state of every station and
    every direct link as it was.
   */
  lemma InvalidLeaves(c: Crypto, w: World, d: MgmtData, info: Info, id: Addr, addr: Addr)
    requires Leaving(d) && !Precheck(c, w, d).valid
    ensures Keeps(w, RxMgmt(c, w, d, info), id, addr) && KeepsLinks(w, RxMgmt(c, w, d, info), id)
  {
    var k := Precheck(c, w, d);
    RxLeaving(c, w, d, info);
    PrecheckKeeps(c, w, d, id, addr);
    hide Precheck, RxMgmt, Leaving, LeavingTo;
    GetKeeps(k.world, BssidOf(k.data), HandlerAddr(k.data), id, addr);
    GetKeepsLinks(k.world, BssidOf(k.data), HandlerAddr(k.data), id);
    assert Leave(k.world, k.data, k.valid, LeavingTo(d)) == Get(k.world, BssidOf(k.data), HandlerAddr(k.data));
    hide Leave, Get, StaAt;
    LinksTransitive(w, k.world, Get(k.world, BssidOf(k.data), HandlerAddr(k.data)), id);
  }

  /** Whether a leaving frame is for a station: the one it names, or each one if it is a broadcast. */
  predicate ActsOn(d: MgmtData, addr: Addr) {
    if Group(HandlerAddr(d)) then Da(d)[0] == 0xff else addr == HandlerAddr(d)
  }

  lemma NotBroadcast(a: Addr)
    requires !Group(a)
    ensures a[0] != 0xff
  {
    LowBit(a[0]);
  }

  lemma LowBit(x: Octet)
    requires x & 0x01 == 0
    ensures x != 0xff
  {
  }

  lemma ActsOnOne(d: MgmtData, addr: Addr)
    requires !Group(Da(d))
    ensures ActsOn(d, addr) <==> addr == HandlerAddr(d) && !Group(addr)
  {
    NotBroadcast(Da(d));
    hide HandlerAddr, Group;
  }

  /** A valid one acts on the stations it is for, and on no other. */
  lemma LeftAt(b: BssV, d: MgmtData, valid: bool, to: AssocState, addr: Addr)
    ensures HasSta(Left(b, d, valid, to), addr) == HasSta(b, addr)
    ensures HasSta(b, addr) ==>
            var s := TheSta(b, addr);
            TheSta(Left(b, d, valid, to), addr) == if |d| >= 26 && valid && ActsOn(d, addr) then Lowered(s, to) else s
  {
    var a := HandlerAddr(d);
    hide Lowered, LinkDown, Group, FindSta, HandlerAddr;
    if |d| >= 26 && valid {
      if Group(a) {
        SameAddresses(b.stas, LowerAll(b.stas, to), addr);
      } else if HasSta(b, a) {
        var s := Lowered(TheSta(b, a), to);
        PutStaAt(b, s, addr);
        SameStas(Left(b, d, valid, to), PutSta(b, s), addr);
      }
    }
  }

  lemma LeaveAt(w: World, d: MgmtData, valid: bool, to: AssocState, id: Addr, addr: Addr)
    requires StaAt(w, id, addr).Some? && !Group(BssidOf(d))
    ensures StaAt(Leave(w, d, valid, to), id, addr)
            == if id == BssidOf(d) && |d| >= 26 && valid && ActsOn(d, addr)
               then Some(Lowered(StaAt(w, id, addr).value, to)) else StaAt(w, id, addr)
  {
    var bssid := BssidOf(d);
    var v := Get(w, bssid, HandlerAddr(d));
    GetKeeps(w, bssid, HandlerAddr(d), id, addr);
    hide Get, Group, Lowered, Left, FindBss, FindSta, PutBss, HandlerAddr, BssidOf, ActsOn;
    if HasBss(v, bssid) {
      LeftAt(TheBss(v, bssid), d, valid, to, addr);
      PutBssAt(v, Left(TheBss(v, bssid), d, valid, to), id);
    }
  }

  lemma SameStas(b: BssV, c: BssV, addr: Addr)
    requires b.stas == c.stas
    ensures HasSta(b, addr) == HasSta(c, addr) && (HasSta(b, addr) ==> TheSta(b, addr) == TheSta(c, addr))
  {
  }

  /**
    The protection of associated stations: when a deauthentication or disassociation for one
    receiver, whose checked station is the one acted on, changes the state of a station in state 3
    with management frame protection, the frame was protected, it was for that station, and its
    body decrypted under that station's PTK.
   */
  lemma ProtectedLeaving(c: Crypto, w: World, d: MgmtData, info: Info, id: Addr, addr: Addr)
    requires Leaving(d) && !Group(Da(d)) && CheckAddr(d) == HandlerAddr(d)
    requires !Group(id) && !Group(addr)
    requires StaAt(w, id, addr).Some? && StaAt(w, id, addr).value.state == State3 && StaAt(w, id, addr).value.sec.mfpc
    requires var t := StaAt(RxMgmt(c, w, d, info), id, addr); t.None? || t.value.state != State3
    ensures IsProtected(d) && id == BssidOf(d) && addr == CheckAddr(d)
    ensures Body(c, StaAt(w, id, addr).value, d).Some?
  {
    var k := Precheck(c, w, d);
    PrecheckKeeps(c, w, d, id, addr);
    HeaderAddresses(d, k.data);
    RxLeaving(c, w, d, info);
    if !k.valid {
      InvalidLeaves(c, w, d, info, id, addr);
    }
    ActsOnOne(k.data, addr);
    hide RxMgmt, LeavingTo, Leave, StaAt, BssidOf, Da, ActsOn;
    if !Group(BssidOf(d)) {
      LeaveAt(k.world, k.data, k.valid, LeavingTo(d), id, addr);
    } else {
      NoBssLeave(k.world, k.data, k.valid, LeavingTo(d), id, addr);
    }
    ValidMeans(c, w, d, id, addr);
  }

  lemma NoBssLeave(w: World, d: MgmtData, valid: bool, to: AssocState, id: Addr, addr: Addr)
    requires Group(BssidOf(d)) && StaAt(w, id, addr).Some?
    ensures StaAt(Leave(w, d, valid, to), id, addr) == StaAt(w, id, addr)
  {
    GetKeeps(w, BssidOf(d), HandlerAddr(d), id, addr);
    hide Get, StaAt;
  }

  lemma HeaderAddresses(d: MgmtData, f: Octets)
    requires |f| >= 24 && f[..24] == d[..24]
    ensures Da(f) == Da(d) && BssidOf(f) == BssidOf(d) && HandlerAddr(f) == HandlerAddr(d)
  {
    assert f[4..10] == f[..24][4..10] && d[4..10] == d[..24][4..10];
    assert f[10..16] == f[..24][10..16] && d[10..16] == d[..24][10..16];
    assert f[16..22] == f[..24][16..22] && d[16..22] == d[..24][16..22];
  }

  /** What the checks have seen where they judge a leaving frame valid. */
  lemma ValidMeans(c: Crypto, w: World, d: MgmtData, id: Addr, addr: Addr)
    requires Leaving(d) && !Group(Da(d)) && Precheck(c, w, d).valid
    requires id == BssidOf(d) && addr == CheckAddr(d) && !Group(id) && !Group(addr)
    requires StaAt(w, id, addr).Some? && StaAt(w, id, addr).value.state == State3 && StaAt(w, id, addr).value.sec.mfpc
    ensures IsProtected(d) && Body(c, StaAt(w, id, addr).value, d).Some?
  {
    GetKeeps(w, id, addr, id, addr);
    hide Get, StaAt, Body, IsProtected, Update, NotePn, BssidOf, Da, CheckAddr, Subtype;
  }

  // ---- Where the check and the handler look at different stations

  /** An unprotected frame does not change the state of an associated, protected station. */
  ghost predicate Undisturbed(c: Crypto, d: MgmtData, w: World, addr: Addr, info: Info) {
    var s := StaAt(w, BssidOf(d), addr);
    s.Some? && s.value.state == State3 && s.value.sec.mfpc && !Group(addr) ==>
      var t := StaAt(RxMgmt(c, w, d, info), BssidOf(d), addr);
      t.Some? && t.value.state == State3
  }

  /** A BSS with one associated station under management frame protection. */
  function OneStation(bssid: Addr, addr: Addr): World {
    World([NewBss(bssid).(stas := [NewSta(addr).(state := State3, sec := Sec(true, false, false))])], [])
  }

  lemma OneStationAt(bssid: Addr, addr: Addr, other: Addr)
    ensures StaAt(OneStation(bssid, addr), bssid, other) ==
            if other == addr then Some(NewSta(addr).(state := State3, sec := Sec(true, false, false))) else None
  {
  }

  /**
    Unprotected deauthentications and disassociations for one receiver leave associated,
    protected stations alone in every world exactly if the station checked is the station acted
    on: that is, unless neither receiver nor sender is the access point and they differ.
   */
  lemma UndisturbedExactly(c: Crypto, d: MgmtData)
    requires Leaving(d) && !IsProtected(d) && |d| >= 26 && !Group(Da(d)) && !Group(BssidOf(d)) && !Group(HandlerAddr(d))
    ensures (forall w, addr, info :: Undisturbed(c, d, w, addr, info)) <==> CheckAddr(d) == HandlerAddr(d)
    ensures CheckAddr(d) == HandlerAddr(d) <==> Da(d) == BssidOf(d) || Sa(d) == BssidOf(d) || Sa(d) == Da(d)
  {
    if CheckAddr(d) == HandlerAddr(d) {
      forall w, addr, info ensures Undisturbed(c, d, w, addr, info) {
        LeftAlone(c, d, w, addr, info);
      }
    } else {
      Disturbed(c, d);
    }
    hide Undisturbed, IsProtected, Leaving, Group;
  }

  lemma Disturbed(c: Crypto, d: MgmtData)
    requires Leaving(d) && !IsProtected(d) && |d| >= 26 && !Group(Da(d)) && !Group(BssidOf(d)) && !Group(HandlerAddr(d))
    requires CheckAddr(d) != HandlerAddr(d)
    ensures !Undisturbed(c, d, OneStation(BssidOf(d), HandlerAddr(d)), HandlerAddr(d), Info(None, None, []))
  {
    Exposed(c, d);
    OneStationAt(BssidOf(d), HandlerAddr(d), HandlerAddr(d));
    hide RxMgmt, StaAt, OneStation, Leaving, IsProtected;
  }

  lemma LeftAlone(c: Crypto, d: MgmtData, w: World, addr: Addr, info: Info)
    requires Leaving(d) && !IsProtected(d) && !Group(Da(d)) && !Group(BssidOf(d)) && CheckAddr(d) == HandlerAddr(d)
    ensures Undisturbed(c, d, w, addr, info)
  {
    hide RxMgmt, StaAt, IsProtected, Leaving, CheckAddr, HandlerAddr, BssidOf;
    if !Undisturbed(c, d, w, addr, info) {
      ProtectedLeaving(c, w, d, info, BssidOf(d), addr);
    }
  }

  /** Otherwise the frame passes the check, which finds another station, and takes this one out of state 3. */
  lemma Exposed(c: Crypto, d: MgmtData)
    requires Leaving(d) && !IsProtected(d) && |d| >= 26 && !Group(Da(d)) && !Group(BssidOf(d)) && !Group(HandlerAddr(d))
    requires CheckAddr(d) != HandlerAddr(d)
    ensures var bssid, addr := BssidOf(d), HandlerAddr(d);
            var t := StaAt(RxMgmt(c, OneStation(bssid, addr), d, Info(None, None, [])), bssid, addr);
            t.Some? && t.value.state != State3
  {
    var bssid, addr := BssidOf(d), HandlerAddr(d);
    var w := OneStation(bssid, addr);
    OneStationAt(bssid, addr, addr);
    OneStationAt(bssid, addr, CheckAddr(d));
    hide OneStation, StaAt, Leaving, IsProtected, Group;
    GetAt(w, bssid, CheckAddr(d), bssid, CheckAddr(d));
    GetKeeps(w, bssid, CheckAddr(d), bssid, addr);
    RxLeaving(c, w, d, Info(None, None, []));
    UncheckedPasses(c, w, d);
    hide RxMgmt, Precheck;
    var v := Get(w, bssid, CheckAddr(d));
    LeaveActs(v, d, LeavingTo(d));
  }

  lemma UncheckedPasses(c: Crypto, w: World, d: MgmtData)
    requires Leaving(d) && !IsProtected(d) && !Group(Da(d))
    requires var s := StaAt(Get(w, BssidOf(d), CheckAddr(d)), BssidOf(d), CheckAddr(d));
             s.None? || s.value.state != State3
    ensures Precheck(c, w, d) == Checked(Get(w, BssidOf(d), CheckAddr(d)), d, true)
  {
    hide Get, StaAt, Group, IsProtected, Subtype;
  }

  lemma LeaveActs(v: World, d: MgmtData, to: AssocState)
    requires |d| >= 26 && !Group(Da(d)) && !Group(BssidOf(d)) && !Group(HandlerAddr(d)) && to != State3
    requires StaAt(v, BssidOf(d), HandlerAddr(d)).Some?
    ensures var t := StaAt(Leave(v, d, true, to), BssidOf(d), HandlerAddr(d)); t.Some? && t.value.state != State3
  {
    LeaveAt(v, d, true, to, BssidOf(d), HandlerAddr(d));
    ActsOnOne(d, HandlerAddr(d));
    hide Leave, StaAt, ActsOn;
  }
}
