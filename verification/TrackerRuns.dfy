/**
  Runs of the protocol tracker: frames and configuration in any order.  Which keys a station may
  come to hold, and what put them there.
 */
module TrackerRuns {
  import opened Options
  import opened Octets
  import opened Records
  import opened Handshake
  import opened MgmtFrames
  import opened TdlsTable
  import Bip

  /** An IGTK element of EAPOL-Key data: key ID, packet number (least significant octet first) and key. */
  datatype IgtkKde = IgtkKde(id: nat, pn: Bip.Ipn, key: Octets)

  datatype Event =
    | Mgmt(frame: Octets, info: Info)
    | Eapol(dst: Addr, src: Addr, key: Octets, learned: Option<Sec>, kde: Option<IgtkKde>)
    | Tdls(bssid: Addr, payload: Octets, elems: Option<Elems>)
    | DataDecrypted(apId: Addr, staAddr: Addr, toDs: bool, tid: nat, pn: Octets)
    | AddPmk(pmk: Pmk)
    | AddBssPmk(bssid: Addr, pmk: Pmk)   // a passphrase given for a BSS that is known
    | Flush

  function Reverse6(s: Bip.Ipn): Bip.Ipn { [s[5], s[4], s[3], s[2], s[1], s[0]] }

  /** The IGTK part of `learn_kde_keys`: key IDs 0 to 5 are taken over. */
  function LearnIgtk(b: BssV, k: IgtkKde): (d: BssV)
    ensures d.bssid == b.bssid && d.stas == b.stas && d.pmks == b.pmks && d.tdls == b.tdls
  {
    if k.id > 5 then b
    else b.(igtks := b.igtks[k.id := Igtk(k.key, true, Reverse6(k.pn))], igtkIdx := k.id)
  }

  /** The BSS and the station of an EAPOL-Key message. */
  function ApOf(m: Message, dst: Addr, src: Addr): Addr { if FromAp(m) then src else dst }

  function StaOf(m: Message, dst: Addr, src: Addr): Addr { if FromAp(m) then dst else src }

  /** Whether the group keys in a message are looked at: its MIC is right. */
  predicate KdeTrusted(c: Crypto, s: StaV, t: StaV, m: Message, d: KeyFrame) {
    (m == Msg3 && Verifies(c, t, d)) || (m == Group1 && s.ptkSet && MicOk(c, s.ptk.kck, d))
  }

  function BssPmks(w: World, id: Addr): seq<Pmk> { if HasBss(w, id) then TheBss(w, id).pmks else [] }

  /** The PMKs tried for a station of a BSS, in this order. */
  function Pmks(w: World, id: Addr): seq<Pmk> { BssPmks(w, id) + w.pmks }

  /** `rx_data_eapol_key` on a message `m` */
  function RxMessage(c: Crypto, w: World, m: Message, e: Event): World
    requires e.Eapol? && |e.key| >= 99
  {
    var id, addr := ApOf(m, e.dst, e.src), StaOf(m, e.dst, e.src);
    var v := Get(w, id, addr);
    match (if Group(id) || Group(addr) then None else StaAt(v, id, addr))
    case None => v
    case Some(s) => OnMessage(c, v, id, s, m, e)
  }

  /** A BSS after a message for its station `s`, and the group keys that the message may carry. */
  function Handled(c: Crypto, b: BssV, s: StaV, wtPmks: seq<Pmk>, m: Message, e: Event): (d: BssV)
    requires e.Eapol? && |e.key| >= 99 && HasSta(b, s.addr)
    ensures d.bssid == b.bssid && d.tdls == b.tdls && d.pmks == b.pmks
  {
    var t := StaStep(c, b.bssid, s, m, e.key, b.pmks + wtPmks, e.learned);
    if KdeTrusted(c, s, t, m, e.key) && e.kde.Some? then LearnIgtk(PutSta(b, t), e.kde.value) else PutSta(b, t)
  }

  /** Its effect once the records are found. */
  function OnMessage(c: Crypto, v: World, id: Addr, s: StaV, m: Message, e: Event): World
    requires e.Eapol? && |e.key| >= 99 && StaAt(v, id, s.addr).Some?
  {
    PutBss(v, Handled(c, TheBss(v, id), s, v.pmks, m, e))
  }

  /** The packet number of a decrypted data frame noted. */
  function NoteDataPn(w: World, e: Event): World
    requires e.DataDecrypted?
  {
    var v := Get(w, e.apId, e.staAddr);
    match (if Group(e.apId) || Group(e.staAddr) then None else StaAt(v, e.apId, e.staAddr))
    case None => v
    case Some(s) =>
      if e.tid > 16 then v
      else Update(v, e.apId, NoteTid(s, e.toDs, e.tid, e.pn))
  }

  /** `bss_add_pmk_from_passphrase` on a known BSS */
  function AddedBssPmk(w: World, bssid: Addr, pmk: Pmk): World {
    if HasBss(w, bssid) then PutBss(w, TheBss(w, bssid).(pmks := [pmk] + TheBss(w, bssid).pmks)) else w
  }

  function Step(c: Crypto, w: World, e: Event): World {
    match e
    case Mgmt(frame, info) => RxMgmt(c, w, frame, info)
    case Eapol(_, _, key, _, _) =>
      (match Classify(key)
       case None => w
       case Some(m) => RxMessage(c, w, m, e))
    case Tdls(bssid, payload, elems) => RxTdls(c, w, bssid, payload, elems)
    case DataDecrypted(_, _, _, _, _) => NoteDataPn(w, e)
    case AddPmk(pmk) => w.(pmks := [pmk] + w.pmks)
    case AddBssPmk(bssid, pmk) => AddedBssPmk(w, bssid, pmk)
    case Flush => w.(bss := [])
  }

  /** The world after a run from the start. */
  function Run(c: Crypto, h: seq<Event>): World {
    if h == [] then World([], []) else Step(c, Run(c, h[..|h| - 1]), h[|h| - 1])
  }

  // ---- Steps that leave keys and PMKs alone

  /** The record of a station, or the one it would start with. */
  function RecordOf(w: World, id: Addr, addr: Addr): (s: StaV)
    ensures s.addr == addr
  {
    if StaAt(w, id, addr).Some? then StaAt(w, id, addr).value else NewSta(addr)
  }

  predicate SameKeys(s: StaV, t: StaV) {
    && t.ptk == s.ptk && t.ptkSet == s.ptkSet && t.tptk == s.tptk && t.tptkSet == s.tptkSet
    && t.anonce == s.anonce && t.snonce == s.snonce
  }

  /** Keys and nonces of the station and PMKs of the BSS are as before, and the station is still there. */
  predicate Quiet(w: World, v: World, id: Addr, addr: Addr) {
    && (StaAt(w, id, addr).Some? ==> StaAt(v, id, addr).Some?)
    && SameKeys(RecordOf(w, id, addr), RecordOf(v, id, addr))
    && BssPmks(v, id) == BssPmks(w, id) && v.pmks == w.pmks
  }

  lemma QuietItself(w: World, id: Addr, addr: Addr)
    ensures Quiet(w, w, id, addr)
  {
  }

  lemma QuietTransitive(u: World, v: World, w: World, id: Addr, addr: Addr)
    requires Quiet(u, v, id, addr) && Quiet(v, w, id, addr)
    ensures Quiet(u, w, id, addr)
  {
    hide StaAt, RecordOf, BssPmks;
  }

  lemma GetQuiet(w: World, bssid: Addr, a: Addr, id: Addr, addr: Addr)
    ensures Quiet(w, Get(w, bssid, a), id, addr)
    ensures RecordOf(Get(w, bssid, a), id, addr) == RecordOf(w, id, addr)
  {
    GetAt(w, bssid, a, id, addr);
    GetPmks(w, bssid, a, id);
    hide Get, StaAt, BssPmks, NewSta, Group;
  }

  lemma GetPmks(w: World, bssid: Addr, a: Addr, id: Addr)
    ensures BssPmks(Get(w, bssid, a), id) == BssPmks(w, id) && Get(w, bssid, a).pmks == w.pmks
  {
    hide Group, NewBss, FindBss, HasSta, FindSta;
    GetBssAt(w, bssid, id);
    var v := GetBss(w, bssid);
    if HasBss(v, bssid) && !Group(bssid) {
      PutBssAt(v, GetSta(TheBss(v, bssid), a), id);
    }
  }

  lemma PutQuiet(w: World, b: BssV, id: Addr, addr: Addr)
    requires HasBss(w, b.bssid) && b.stas == TheBss(w, b.bssid).stas && b.pmks == TheBss(w, b.bssid).pmks
    ensures Quiet(w, PutBss(w, b), id, addr)
  {
    PutKeeps(w, b, id, addr);
    PutBssAt(w, b, id);
    PutPmks(w, b);
    hide PutBss, StaAt, FindBss;
  }

  lemma PutPmks(w: World, b: BssV)
    requires HasBss(w, b.bssid)
    ensures PutBss(w, b).pmks == w.pmks
  {
  }

  lemma UpdatePmks(w: World, bssid: Addr, s: StaV, id: Addr)
    requires StaAt(w, bssid, s.addr).Some?
    ensures BssPmks(Update(w, bssid, s), id) == BssPmks(w, id) && Update(w, bssid, s).pmks == w.pmks
  {
    var b := PutSta(TheBss(w, bssid), s);
    PutBssAt(w, b, id);
    PutPmks(w, b);
    hide PutBss, FindBss, FindSta;
  }

  lemma UpdateQuiet(w: World, bssid: Addr, s: StaV, id: Addr, addr: Addr)
    requires StaAt(w, bssid, s.addr).Some? && SameKeys(StaAt(w, bssid, s.addr).value, s)
    ensures Quiet(w, Update(w, bssid, s), id, addr)
  {
    UpdateAt(w, bssid, s, id, addr);
    UpdatePmks(w, bssid, s, id);
    hide Update, StaAt, BssPmks;
  }

  /** A BSS whose stations keep their addresses, their keys and their PMKs. */
  lemma PutSameKeys(w: World, b: BssV, id: Addr, addr: Addr)
    requires HasBss(w, b.bssid) && b.pmks == TheBss(w, b.bssid).pmks && |b.stas| == |TheBss(w, b.bssid).stas|
    requires forall i | 0 <= i < |b.stas| ::
               b.stas[i].addr == TheBss(w, b.bssid).stas[i].addr && SameKeys(TheBss(w, b.bssid).stas[i], b.stas[i])
    ensures Quiet(w, PutBss(w, b), id, addr)
  {
    PutBssAt(w, b, id);
    PutPmks(w, b);
    SameAddresses(TheBss(w, b.bssid).stas, b.stas, addr);
    hide PutBss, FindBss, SameKeys;
    KeysThemselves(RecordOf(w, id, addr));
  }

  lemma KeysThemselves(s: StaV)
    ensures SameKeys(s, s)
  {
  }

  // ---- Management frames are quiet, except that beacons may bring PMKs.

  lemma OnStaQuiet(w: World, bssid: Addr, a: Addr, op: StaOp, id: Addr, addr: Addr)
    ensures Quiet(w, OnSta(w, bssid, a, op), id, addr)
  {
    GetQuiet(w, bssid, a, id, addr);
    var v := Get(w, bssid, a);
    hide Get, StaAt, Group, Quiet, Update;
    if !Group(bssid) && !Group(a) && StaAt(v, bssid, a).Some? {
      UpdateQuiet(v, bssid, Apply(op, StaAt(v, bssid, a).value), id, addr);
      QuietTransitive(w, v, OnSta(w, bssid, a, op), id, addr);
    }
  }

  lemma LeftKeys(b: BssV, d: MgmtData, valid: bool, to: AssocState)
    ensures var e := Left(b, d, valid, to);
            && |e.stas| == |b.stas|
            && forall i | 0 <= i < |b.stas| :: e.stas[i].addr == b.stas[i].addr && SameKeys(b.stas[i], e.stas[i])
  {
    hide FindSta, Group;
  }

  lemma LeaveQuiet(w: World, d: MgmtData, valid: bool, to: AssocState, id: Addr, addr: Addr)
    ensures Quiet(w, Leave(w, d, valid, to), id, addr)
  {
    var bssid := BssidOf(d);
    GetQuiet(w, bssid, HandlerAddr(d), id, addr);
    var v := Get(w, bssid, HandlerAddr(d));
    hide Get, Group, Quiet, Left, FindBss, PutBss, SameKeys;
    if HasBss(v, bssid) {
      var b := Left(TheBss(v, bssid), d, valid, to);
      LeftKeys(TheBss(v, bssid), d, valid, to);
      PutSameKeys(v, b, id, addr);
      QuietTransitive(w, v, PutBss(v, b), id, addr);
    }
  }

  lemma BipQuiet(c: Crypto, w: World, d: MgmtData, id: Addr, addr: Addr)
    ensures Quiet(w, CheckBip(c, w, d).0, id, addr)
  {
    QuietItself(w, id, addr);
    var bssid := BssidOf(d);
    GetBssQuiet(w, bssid, id, addr);
    var v := GetBss(w, bssid);
    if HasBss(v, bssid) {
      var b := CheckMmie(c, TheBss(v, bssid), d).0;
      MmiePmks(c, TheBss(v, bssid), d);
      PutQuiet(v, b, id, addr);
      QuietTransitive(w, v, PutBss(v, b), id, addr);
    }
    hide CheckMmie, GetBss, Group, PutBss, HasBss, TheBss, Quiet, Subtype;
  }

  lemma MmiePmks(c: Crypto, b: BssV, d: MgmtData)
    ensures CheckMmie(c, b, d).0.pmks == b.pmks
  {
  }

  lemma GetBssQuiet(w: World, bssid: Addr, id: Addr, addr: Addr)
    ensures Quiet(w, GetBss(w, bssid), id, addr)
  {
    GetBssAt(w, bssid, id);
    GetBssPmks(w, bssid);
    NoStas(NewBss(bssid), addr);
    hide GetBss, Group, FindBss, FindSta, NewBss;
  }

  lemma GetBssPmks(w: World, bssid: Addr)
    ensures GetBss(w, bssid).pmks == w.pmks
  {
  }

  lemma DecryptQuiet(c: Crypto, w: World, d: MgmtData, id: Addr, addr: Addr)
    ensures Quiet(w, MgmtCcmpDecrypt(c, w, d).0, id, addr)
  {
    var bssid, a := BssidOf(d), CheckAddr(d);
    GetQuiet(w, bssid, a, id, addr);
    var v := Get(w, bssid, a);
    hide Get, StaAt, Group, Body, Update, Quiet, CheckAddr, BssidOf;
    if !Group(bssid) && !Group(a) && StaAt(v, bssid, a).Some? && Body(c, StaAt(v, bssid, a).value, d).Some? {
      BodyLength(c, StaAt(v, bssid, a).value, d);
      var s := NotePn(StaAt(v, bssid, a).value, d);
      assert SameKeys(StaAt(v, bssid, a).value, s);
      UpdateQuiet(v, bssid, s, id, addr);
      QuietTransitive(w, v, Update(v, bssid, s), id, addr);
    }
  }

  lemma PrecheckQuiet(c: Crypto, w: World, d: MgmtData, id: Addr, addr: Addr)
    ensures Quiet(w, Precheck(c, w, d).world, id, addr)
  {
    QuietItself(w, id, addr);
    BipQuiet(c, w, d, id, addr);
    DecryptQuiet(c, w, d, id, addr);
    GetQuiet(w, BssidOf(d), CheckAddr(d), id, addr);
    hide Quiet, CheckBip, MgmtCcmpDecrypt, Get, StaAt, Robust, Group, IsProtected;
  }

  /** A beacon changes no station; the PMKs of its BSS grow by those the frame brings. */
  lemma BeaconAdds(w: World, d: MgmtData, info: Info, id: Addr, addr: Addr)
    ensures var v := Beacon(w, d, info);
            && (StaAt(w, id, addr).Some? ==> StaAt(v, id, addr).Some?)
            && SameKeys(RecordOf(w, id, addr), RecordOf(v, id, addr))
            && v.pmks == w.pmks
            && forall p | p in BssPmks(v, id) :: p in BssPmks(w, id) || (id == BssidOf(d) && p in info.pmks)
  {
    var bssid := BssidOf(d);
    GetBssQuiet(w, bssid, id, addr);
    KeysThemselves(RecordOf(w, id, addr));
    var v := GetBss(w, bssid);
    if !Group(bssid) && HasBss(v, bssid) {
      var b := TheBss(v, bssid);
      var n := Announced(b, info);
      PutKeeps(v, n, id, addr);
      PutBssAt(v, n, id);
      PutPmks(v, n);
    }
    hide GetBss, Group, PutBss, FindBss, StaAt, SameKeys;
  }

  predicate IsBeacon(d: MgmtData) { Subtype(d) == WLAN_FC_STYPE_BEACON || Subtype(d) == WLAN_FC_STYPE_PROBE_RESP }

  lemma OtherMgmtQuiet(c: Crypto, w: World, d: MgmtData, info: Info, id: Addr, addr: Addr)
    requires !IsBeacon(d)
    ensures Quiet(w, RxMgmt(c, w, d, info), id, addr)
  {
    var k := Precheck(c, w, d);
    PrecheckQuiet(c, w, d, id, addr);
    PrecheckKeeps(c, w, d, id, addr);
    hide Precheck;
    DispatchQuiet(k.world, k.data, Subtype(d), k.valid, info, id, addr);
    hide Quiet, Dispatch;
    QuietTransitive(w, k.world, RxMgmt(c, w, d, info), id, addr);
  }

  lemma DispatchQuiet(w: World, d: MgmtData, subtype: bv16, valid: bool, info: Info, id: Addr, addr: Addr)
    requires subtype != WLAN_FC_STYPE_BEACON && subtype != WLAN_FC_STYPE_PROBE_RESP
    ensures Quiet(w, Dispatch(w, d, subtype, valid, info), id, addr)
  {
    hide Quiet, Leave, OnSta, AuthOp, AssocReqOp, AssocRespOp, HandlerAddr, Group;
    if subtype == WLAN_FC_STYPE_AUTH {
      OnStaQuiet(w, BssidOf(d), HandlerAddr(d), AuthOp(d), id, addr);
    } else if subtype == WLAN_FC_STYPE_DEAUTH {
      LeaveQuiet(w, d, valid, State1, id, addr);
    } else if subtype == WLAN_FC_STYPE_DISASSOC {
      LeaveQuiet(w, d, valid, State2, id, addr);
    } else if subtype == WLAN_FC_STYPE_ASSOC_REQ {
      OnStaQuiet(w, BssidOf(d), Sa(d), AssocReqOp(d, 4, info), id, addr);
    } else if subtype == WLAN_FC_STYPE_REASSOC_REQ {
      OnStaQuiet(w, BssidOf(d), Sa(d), AssocReqOp(d, 10, info), id, addr);
    } else if subtype == WLAN_FC_STYPE_ASSOC_RESP || subtype == WLAN_FC_STYPE_REASSOC_RESP {
      OnStaQuiet(w, BssidOf(d), Da(d), AssocRespOp(d), id, addr);
    } else {
      QuietItself(w, id, addr);
      OnStaQuiet(w, BssidOf(d), HandlerAddr(d), Nothing, id, addr);
    }
  }

  // ---- TDLS frames are quiet.

  lemma LinkQuiet(w: World, b: BssV, id: Addr, addr: Addr)
    requires HasBss(w, b.bssid) && b == TheBss(w, b.bssid).(tdls := b.tdls)
    ensures Quiet(w, PutBss(w, b), id, addr)
  {
    PutQuiet(w, b, id, addr);
  }

  lemma TdlsQuiet(c: Crypto, w: World, bssid: Addr, payload: Octets, elems: Option<Elems>, id: Addr, addr: Addr)
    ensures Quiet(w, RxTdls(c, w, bssid, payload, elems), id, addr)
  {
    QuietItself(w, id, addr);
    hide Quiet, Linked, LinkOpOf, PutBss, FindBss, FindSta;
    if elems.Some? && LinkOpOf(payload).Some? && Known(w, elems.value.linkId, bssid) {
      var e := elems.value;
      LinkQuiet(w, Linked(c, BssOf(w, e.linkId, bssid), LinkOpOf(payload).value, bssid, e), id, addr);
    }
  }

  lemma DataQuiet(w: World, e: Event, id: Addr, addr: Addr)
    requires e.DataDecrypted?
    ensures Quiet(w, NoteDataPn(w, e), id, addr)
  {
    GetQuiet(w, e.apId, e.staAddr, id, addr);
    var v := Get(w, e.apId, e.staAddr);
    hide Get, StaAt, Group, Quiet, Update;
    if !Group(e.apId) && !Group(e.staAddr) && StaAt(v, e.apId, e.staAddr).Some? && e.tid <= 16 {
      var s := StaAt(v, e.apId, e.staAddr).value;
      var t := NoteTid(s, e.toDs, e.tid, e.pn);
      UpdateQuiet(v, e.apId, t, id, addr);
      QuietTransitive(w, v, Update(v, e.apId, t), id, addr);
    }
  }

  // ---- EAPOL-Key frames

  /** The event is a message of the handshake between a station and its access point, as their addresses say. */
  predicate MessageFor(e: Event, id: Addr, addr: Addr) {
    !Group(id) && !Group(addr) && e.Eapol? && Classify(e.key).Some? && |e.key| >= 99
    && id == ApOf(Classify(e.key).value, e.dst, e.src) && addr == StaOf(Classify(e.key).value, e.dst, e.src)
  }

  /** What the message makes of the record of its station. */
  function ByMessage(c: Crypto, w: World, e: Event, id: Addr, s: StaV): StaV
    requires e.Eapol? && Classify(e.key).Some? && |e.key| >= 99
  {
    StaStep(c, id, s, Classify(e.key).value, e.key, Pmks(w, id), e.learned)
  }

  /** The message finds or adds the record of its station, and takes the station's step on it. */
  lemma MessageSta(c: Crypto, w: World, m: Message, e: Event, id: Addr, addr: Addr)
    requires e.Eapol? && |e.key| >= 99
    ensures var v := RxMessage(c, w, m, e);
            var s := RecordOf(w, id, addr);
            && (StaAt(w, id, addr).Some? ==> StaAt(v, id, addr).Some?)
            && BssPmks(v, id) == BssPmks(w, id) && v.pmks == w.pmks
            && RecordOf(v, id, addr)
               == if id == ApOf(m, e.dst, e.src) && addr == StaOf(m, e.dst, e.src) && !Group(id) && !Group(addr)
                  then StaStep(c, id, s, m, e.key, Pmks(w, id), e.learned) else s
  {
    var ap, a := ApOf(m, e.dst, e.src), StaOf(m, e.dst, e.src);
    var v := Get(w, ap, a);
    GetQuiet(w, ap, a, id, addr);
    GetQuiet(w, ap, a, ap, a);
    GetAt(w, ap, a, ap, a);
    hide Get, Group, StaStep, BssPmks, OnMessage, SameKeys, StaAt;
    if !Group(ap) && !Group(a) && StaAt(v, ap, a).Some? {
      OnMessageSta(c, v, ap, StaAt(v, ap, a).value, m, e, id, addr);
    }
  }

  lemma OnMessageSta(c: Crypto, v: World, ap: Addr, s: StaV, m: Message, e: Event, id: Addr, addr: Addr)
    requires e.Eapol? && |e.key| >= 99 && StaAt(v, ap, s.addr) == Some(s)
    ensures var y := OnMessage(c, v, ap, s, m, e);
            var t := StaStep(c, ap, s, m, e.key, Pmks(v, ap), e.learned);
            && StaAt(y, id, addr) == (if id == ap && addr == s.addr then Some(t) else StaAt(v, id, addr))
            && BssPmks(y, id) == BssPmks(v, id) && y.pmks == v.pmks
  {
    var t := StaStep(c, ap, s, m, e.key, Pmks(v, ap), e.learned);
    var b := Handled(c, TheBss(v, ap), s, v.pmks, m, e);
    hide StaStep, KdeTrusted, LearnIgtk, FindBss, FindSta;
    assert b.stas == PutSta(TheBss(v, ap), t).stas;
    PutStaAt(TheBss(v, ap), t, addr);
    SameStas(b, PutSta(TheBss(v, ap), t), addr);
    PutBssAt(v, b, id);
    PutPmks(v, b);
    hide Handled, PutSta, PutBss;
  }

  // ---- Every step

  /** A frame or a passphrase that brings a PMK for a BSS. */
  predicate Brings(e: Event, id: Addr, p: Pmk) {
    || (e.Mgmt? && |e.frame| >= 24 && IsBeacon(e.frame) && BssidOf(e.frame) == id && p in e.info.pmks)
    || e == AddBssPmk(id, p)
  }

  lemma BssPmkQuiet(w: World, bssid: Addr, pmk: Pmk, id: Addr, addr: Addr)
    ensures var v := AddedBssPmk(w, bssid, pmk);
            && StaAt(v, id, addr) == StaAt(w, id, addr) && v.pmks == w.pmks
            && forall p | p in BssPmks(v, id) :: p in BssPmks(w, id) || (id == bssid && p == pmk)
  {
    if HasBss(w, bssid) {
      var b := TheBss(w, bssid).(pmks := [pmk] + TheBss(w, bssid).pmks);
      PutKeeps(w, b, id, addr);
      PutBssAt(w, b, id);
      PutPmks(w, b);
    }
    hide PutBss, FindBss, StaAt;
  }

  /** Keys as before, or as the message leaves them. */
  predicate KeysByMessage(c: Crypto, w: World, e: Event, id: Addr, s: StaV, t: StaV) {
    if MessageFor(e, id, s.addr) then t == ByMessage(c, w, e, id, s) else SameKeys(s, t)
  }

  /** One step: no station is lost, keys change by messages only, PMKs come from beacons and configuration. */
  lemma StepKeys(c: Crypto, w: World, e: Event, id: Addr, addr: Addr)
    requires !e.Flush?
    ensures StaAt(w, id, addr).Some? ==> StaAt(Step(c, w, e), id, addr).Some?
    ensures KeysByMessage(c, w, e, id, RecordOf(w, id, addr), RecordOf(Step(c, w, e), id, addr))
    ensures forall p | p in BssPmks(Step(c, w, e), id) :: p in BssPmks(w, id) || Brings(e, id, p)
    ensures forall p | p in Step(c, w, e).pmks :: p in w.pmks || e == AddPmk(p)
  {
    QuietItself(w, id, addr);
    match e
    case Mgmt(frame, info) =>
      if |frame| >= 24 {
        if IsBeacon(frame) {
          hide SameKeys, StaAt, BssPmks;
          BeaconAdds(w, frame, info, id, addr);
          BeaconOnly(c, w, frame, info);
        } else {
          hide RxMgmt, SameKeys, StaAt, BssPmks;
          OtherMgmtQuiet(c, w, frame, info, id, addr);
        }
      }
    case Eapol(_, _, key, _, _) =>
      if Classify(key).Some? {
        hide RxMessage, StaStep, StaAt, BssPmks;
        KeysThemselves(RecordOf(w, id, addr));
        MessageSta(c, w, Classify(key).value, e, id, addr);
      }
    case Tdls(bssid, payload, elems) =>
      hide RxTdls, SameKeys, StaAt, BssPmks;
      TdlsQuiet(c, w, bssid, payload, elems, id, addr);
    case DataDecrypted(_, _, _, _, _) =>
      hide NoteDataPn, SameKeys, StaAt, BssPmks;
      DataQuiet(w, e, id, addr);
    case AddPmk(pmk) =>
    case AddBssPmk(bssid, pmk) =>
      KeysThemselves(RecordOf(w, id, addr));
      hide AddedBssPmk, SameKeys, StaAt, BssPmks;
      BssPmkQuiet(w, bssid, pmk, id, addr);
  }

  lemma BeaconOnly(c: Crypto, w: World, d: MgmtData, info: Info)
    requires IsBeacon(d)
    ensures RxMgmt(c, w, d, info) == Beacon(w, d, info)
  {
    hide Beacon, Subtype;
  }

  /** A change of the PTK in use is a first installation, or message 4 putting the pending key to use. */
  ghost predicate PtkExplained(c: Crypto, w: World, e: Event, id: Addr, s: StaV, t: StaV) {
    PtkChanged(s, t) ==>
      (MessageFor(e, id, s.addr)
       && (FirstInstall(c, id, s, t, Classify(e.key).value, e.key, Pmks(w, id))
           || Rekeyed(c, s, t, Classify(e.key).value, e.key)))
  }

  /** A change of the pending key is a derivation for a rekeying, or message 4 using it up. */
  ghost predicate TptkExplained(c: Crypto, w: World, e: Event, id: Addr, s: StaV, t: StaV) {
    TptkChanged(s, t) ==>
      (MessageFor(e, id, s.addr)
       && (RekeyPending(c, id, s, t, Classify(e.key).value, e.key, Pmks(w, id))
           || Rekeyed(c, s, t, Classify(e.key).value, e.key)))
  }

  /**
    Whatever happens, the PTK in use of a station changes only by a message of its own handshake:
    by a first installation, or by message 4 putting the pending key to use.  A flush aside, a
    station stays, and a PTK once in use stays in use.
   */
  lemma PtkSteps(c: Crypto, w: World, e: Event, id: Addr, addr: Addr)
    requires !e.Flush?
    ensures var s, t := RecordOf(w, id, addr), RecordOf(Step(c, w, e), id, addr);
            && PtkExplained(c, w, e, id, s, t) && TptkExplained(c, w, e, id, s, t)
            && (StaAt(w, id, addr).Some? ==> StaAt(Step(c, w, e), id, addr).Some?)
            && (s.ptkSet ==> t.ptkSet)
            && ((s.tptkSet ==> s.ptkSet) ==> (t.tptkSet ==> t.ptkSet))
  {
    StepKeys(c, w, e, id, addr);
    var s := RecordOf(w, id, addr);
    if MessageFor(e, id, addr) {
      PtkChanges(c, id, s, Classify(e.key).value, e.key, Pmks(w, id), e.learned);
      KeysKept(c, id, s, Classify(e.key).value, e.key, Pmks(w, id), e.learned);
    }
    hide Step, StaAt, StaStep, FirstInstall, Rekeyed, RekeyPending, Classify, Pmks, BssPmks, RecordOf;
  }

  /** A PMK that configuration or a beacon of the BSS brought. */
  ghost predicate Added(h: seq<Event>, id: Addr, p: Pmk) {
    exists k | 0 <= k < |h| :: Offers(h[k], id, p)
  }

  predicate Offers(e: Event, id: Addr, p: Pmk) { e == AddPmk(p) || Brings(e, id, p) }

  lemma AddedLater(h: seq<Event>, g: seq<Event>, id: Addr, p: Pmk)
    requires Added(h, id, p) && h <= g
    ensures Added(g, id, p)
  {
    var k :| 0 <= k < |h| && Offers(h[k], id, p);
    assert Offers(g[k], id, p);
  }

  /** Only such PMKs are ever tried. */
  lemma {:induction false} PmksAdded(c: Crypto, h: seq<Event>, id: Addr, p: Pmk)
    requires p in Pmks(Run(c, h), id)
    ensures Added(h, id, p)
  {
    if h != [] {
      var g, e := h[..|h| - 1], h[|h| - 1];
      var w := Run(c, g);
      if Offers(e, id, p) {
        assert Offers(h[|h| - 1], id, p);
      } else {
        hide Step, FindBss, Brings;
        assert p in Pmks(w, id) by {
          if !e.Flush? {
            StepKeys(c, w, e, id, id);
          } else {
            FlushPmks(c, w, id);
          }
        }
        PmksAdded(c, g, id, p);
        AddedLater(g, h, id, p);
      }
    }
  }

  lemma FlushPmks(c: Crypto, w: World, id: Addr)
    ensures BssPmks(Step(c, w, Flush), id) == [] && Step(c, w, Flush).pmks == w.pmks
    ensures forall addr :: StaAt(Step(c, w, Flush), id, addr) == None
  {
  }

  // ---- Nonces

  /** The event carries a nonce of the access point, or of the station. */
  predicate CarriesNonce(e: Event, id: Addr, addr: Addr, ofAp: bool) {
    MessageFor(e, id, addr)
    && var m := Classify(e.key).value; if ofAp then m == Msg1 || m == Msg3 else m == Msg2
  }

  /** The nonce last carried since the last flush, or zeros. */
  function LastNonce(h: seq<Event>, id: Addr, addr: Addr, ofAp: bool): Octets {
    if h == [] || h[|h| - 1].Flush? then Zeros(32)
    else if CarriesNonce(h[|h| - 1], id, addr, ofAp) then KeyNonce(h[|h| - 1].key)
    else LastNonce(h[..|h| - 1], id, addr, ofAp)
  }

  /** The nonces of a record are those last seen. */
  predicate NoncesSeen(h: seq<Event>, id: Addr, s: StaV) {
    s.anonce == LastNonce(h, id, s.addr, true) && s.snonce == LastNonce(h, id, s.addr, false)
  }

  lemma MessageNonces(c: Crypto, bssid: Addr, s: StaV, m: Message, d: KeyFrame, pmks: seq<Pmk>, learned: Option<Sec>)
    ensures var t := StaStep(c, bssid, s, m, d, pmks, learned);
            && t.anonce == (if m == Msg1 || m == Msg3 then KeyNonce(d) else s.anonce)
            && t.snonce == (if m == Msg2 then KeyNonce(d) else s.snonce)
  {
    DeriveChanges(c, bssid, s.(snonce := KeyNonce(d)), d, pmks);
    DeriveChanges(c, bssid, s.(anonce := KeyNonce(d)), d, pmks);
    hide MicOk, DerivePtk, KeyNonce, FromPmk;
  }

  /** After every run a station's record holds the nonces last seen in its handshake. */
  lemma {:induction false} RunNonces(c: Crypto, h: seq<Event>, id: Addr, addr: Addr)
    ensures NoncesSeen(h, id, RecordOf(Run(c, h), id, addr))
  {
    if h == [] {
      assert StaAt(World([], []), id, addr) == None;
    } else {
      var g, e := h[..|h| - 1], h[|h| - 1];
      var w := Run(c, g);
      RunNonces(c, g, id, addr);
      if e.Flush? {
        FlushPmks(c, w, id);
        hide Step, StaAt;
      } else {
        StepKeys(c, w, e, id, addr);
        var s := RecordOf(w, id, addr);
        hide Step, StaAt, RecordOf, StaStep, Classify, Pmks, BssPmks, Group, KeyNonce;
        if MessageFor(e, id, addr) {
          MessageNonces(c, id, s, Classify(e.key).value, e.key, Pmks(w, id), e.learned);
        }
      }
    }
  }

  // ---- Where the keys come from

  /**
    Event `k` of the run is a message of the station's handshake whose MIC the key verifies.  The
    key comes from a PMK known to the tracker at that moment, and from the nonces last seen.
   */
  ghost predicate Verified(c: Crypto, h: seq<Event>, id: Addr, addr: Addr, ptk: Ptk, k: nat, x: PtkInput) {
    k < |h| && MessageFor(h[k], id, addr) && MicOk(c, ptk.kck, h[k].key)
    && x.bssid == id && x.addr == addr && ptk == c.prf(x)
    && x.pmk in Pmks(Run(c, h[..k]), id)
    && x.anonce == LastNonce(h[..k + 1], id, addr, true) && x.snonce == LastNonce(h[..k + 1], id, addr, false)
  }

  ghost predicate Justified(c: Crypto, h: seq<Event>, id: Addr, addr: Addr, ptk: Ptk) {
    exists k: nat, x: PtkInput :: Verified(c, h, id, addr, ptk, k, x)
  }

  lemma JustifiedLater(c: Crypto, h: seq<Event>, g: seq<Event>, id: Addr, addr: Addr, ptk: Ptk)
    requires Justified(c, h, id, addr, ptk) && h <= g
    ensures Justified(c, g, id, addr, ptk)
  {
    hide MessageFor, MicOk, Pmks, LastNonce, Run;
    var k: nat, x: PtkInput :| Verified(c, h, id, addr, ptk, k, x);
    assert g[..k] == h[..k] && g[k] == h[k] && g[..k + 1] == h[..k + 1];
    assert Verified(c, g, id, addr, ptk, k, x);
  }

  /** A key just derived is justified by the message that it verifies. */
  lemma DerivedJustified(c: Crypto, h: seq<Event>, id: Addr, s: StaV, ptk: Ptk)
    requires h != [] && MessageFor(h[|h| - 1], id, s.addr) && MicOk(c, ptk.kck, h[|h| - 1].key)
    requires FromPmk(c, id, s, h[|h| - 1].key, Pmks(Run(c, h[..|h| - 1]), id), ptk)
    requires NoncesSeen(h, id, s)
    ensures Justified(c, h, id, s.addr, ptk)
  {
    var n := |h| - 1;
    var pmks := Pmks(Run(c, h[..n]), id);
    hide Run, Pmks, MicOk, MessageFor, LastNonce;
    var k :| 0 <= k < |pmks| && Explains(c, id, s, h[n].key, pmks[k]) && ptk == Derived(c, id, s, pmks[k]);
    assert h[..n + 1] == h;
    var x := PtkInput(pmks[k], id, s.addr, s.anonce, s.snonce, s.sec.tkip, s.sec.sha256);
    assert Verified(c, h, id, s.addr, ptk, n, x);
  }

  /** What holds of the keys of every station after every run. */
  ghost predicate KeysSound(c: Crypto, h: seq<Event>, id: Addr, s: StaV) {
    && (s.tptkSet ==> s.ptkSet)
    && (s.ptkSet ==> Justified(c, h, id, s.addr, s.ptk))
    && (s.tptkSet ==> Justified(c, h, id, s.addr, s.tptk))
  }

  /**
    In every run: a key for a rekeying is held only beside a PTK in use, and every PTK held
    verified the MIC of some message of the station's own handshake, and comes from a PMK known at
    that moment and the nonces last seen in that handshake.
   */
  lemma {:induction false} RunKeys(c: Crypto, h: seq<Event>, id: Addr, addr: Addr)
    ensures KeysSound(c, h, id, RecordOf(Run(c, h), id, addr))
  {
    if h == [] {
      assert StaAt(World([], []), id, addr) == None;
    } else {
      var g, e := h[..|h| - 1], h[|h| - 1];
      var w := Run(c, g);
      RunKeys(c, g, id, addr);
      if e.Flush? {
        FlushPmks(c, w, id);
        hide Step, StaAt;
      } else {
        PtkSteps(c, w, e, id, addr);
        RunNonces(c, h, id, addr);
        hide Step, StaAt, Run, RecordOf;
        KeysStep(c, h, id, RecordOf(w, id, addr), RecordOf(Step(c, w, e), id, addr));
      }
    }
  }

  lemma KeysStep(c: Crypto, h: seq<Event>, id: Addr, s: StaV, t: StaV)
    requires h != [] && KeysSound(c, h[..|h| - 1], id, s) && t.addr == s.addr && NoncesSeen(h, id, t)
    requires s.ptkSet ==> t.ptkSet
    requires (s.tptkSet ==> s.ptkSet) ==> (t.tptkSet ==> t.ptkSet)
    requires PtkExplained(c, Run(c, h[..|h| - 1]), h[|h| - 1], id, s, t)
    requires TptkExplained(c, Run(c, h[..|h| - 1]), h[|h| - 1], id, s, t)
    ensures KeysSound(c, h, id, t)
  {
    var g, e := h[..|h| - 1], h[|h| - 1];
    var w := Run(c, g);
    hide Run, Pmks, Classify, MicOk, FromPmk, Justified, FreshRsc, LastNonce;
    if t.ptkSet {
      if PtkChanged(s, t) && FirstInstall(c, id, s, t, Classify(e.key).value, e.key, Pmks(w, id)) {
        DerivedJustified(c, h, id, t.(sec := s.sec), t.ptk);
      } else {
        JustifiedLater(c, g, h, id, t.addr, t.ptk);
      }
    }
    if t.tptkSet {
      if TptkChanged(s, t) {
        DerivedJustified(c, h, id, t.(sec := s.sec), t.tptk);
      } else {
        JustifiedLater(c, g, h, id, t.addr, t.tptk);
      }
    }
  }
}
